# Web controller: verified model

A Dafny model of the algorithmic parts of a Go web controller and proofs of what they guarantee.

| file | models |
|---|---|
| `AgentEventList.dfy` | the bounded, numbered event list, the backward scan of a listener, and the publisher loop with an idle producer |
| `AgentEventProtocol.dfy` | producer, publishers and websocket clients as interleaved atomic steps, with the invariant all of them keep |
| `AgentEventTheorems.dfy` | what every interleaving guarantees: closing, stopping, delivery, wake-ups |
| `NodeMonitor.dfy` | the keep-alive failure detector with its master/standby switch, as timed runs |
| `AesCodec.dfy` | padding, CBC, base16, and password encryption over any invertible block cipher |
| `Cidr.dfy` | prefix containment by masked comparison against address ranges |
| `NodeMetrics.dfy`, `NodeUsage.dfy` | the time grid, bucketing of samples, and sums over series |
| `Filters.dfy`, `SqlQuery.dfy` | request filters, the query generator, and a parser and evaluator for the text it emits |
| `Authorization.dfy`, `UserAuthority.dfy` | the authority map, the permission check, and the reload of a user |
| `AuthStore.dfy`, `AuthHandlers.dfy` | users, groups, roles, passwords and sessions over whole runs; the handlers over mutable tables |
| `Wrappers.dfy` | small shared datatypes |

State changing Go code is a class whose methods are proved against a specification function. Lemmas then say, field
by field and without that function, what each operation writes and what it leaves alone, and the theorems are about
whole runs. Go's map iteration order, the SQL row order, clock readings, database and file outcomes, the block cipher
and number parsing are parameters or arbitrary choices, so every result holds for all of them.

## What the code does that a reader might not expect

These are theorems, each with the exact condition where a promise fails.

- A listener's offset grows by the batch length, not to the last index (`agentevent_websocket.go:95`). Delivery is
  exactly once if and only if no fetch finds the offset below the list front
  (`AgentEventTheorems.ExactlyOnceUnlessLapped`), and such a fetch is reachable (`ListenerCanBeLapped`). Every lost
  event is paid for with one repeated event or a lagging offset (`LostEqualsRepeated`), and a listener that starts late
  is sent the same window again and again (`AgentEventList.DrainedRepeats`, `LapsEndCounts`, `DrainedOnce`).
- A broadcast between the empty fetch and `cond.Wait` is lost, and the event stays undelivered until the next one
  (`WakeupCanBeLost`, `StrandedExactlyWhenMissed`).
- The start-up history is numbered newest first, because the query that loads it is descending: the first eviction
  drops the newest stored event (`AgentEventList.FirstEvictionDropsNewest`).
- A master switch that half-writes the configuration file and reloads it can leave a third master setting
  (`NodeMonitor.KnownMasterUnlessSpoiled`, `HalfWrittenMaster`).
- A subnet written with length 0 is accepted by any longer prefix its address matches
  (`Cidr.SubnetAnswerIsRightIff`, `ZeroLengthSubnetIsMisjudged`).
- `unpad` checks the last byte only; it is exact on well-padded input (`UnpadIsExactOnWellPadded`).
- The design document (`doc/design/auth/auth.md:31-42`) says IP prefixes of a role grant operations on address
  resources. The code collects them and then passes an empty list, so they grant nothing
  (`UserAuthority.PlansGrantNothing`). The documented rule is kept for all requests if and only if the user's roles
  hold no prefix or the template filters no address resource (`PlanPromiseKeptIff`); `PlanIsIgnored` is a case where
  it is not, `Authorization.RefusedWithoutPlans` says which requests are refused.
- The same document says every user, group or role change updates the user's authority table. Group and role
  handlers write rows only, so an open session keeps its old decisions (`AuthStore.SessionsIgnoreGroupsAndRoles`).
  They are still those of a login now if and only if the views stored for the user are unchanged or no template entry
  in force looks at views (`SessionStaysRightIff`, `RoleUpdateKeepsSessionRightIff`); `SessionCanBeStale` is a case
  where they are not.
- Deleting a group leaves its roles in the member rows (`GroupRolesOutliveTheGroup`). A deleted role stays out of all
  rows, whatever is done later without naming it, if and only if no group lists it (`DeletedRoleStaysAway`,
  `DeletedRoleCanReturn`).
- One sample off the time grid makes the whole metric request panic (`NodeMetrics.GetRatiosWithTimestamp`,
  `InGridIff`), and device names that start with "docker" or "veth" are not filtered out (`SkippedDeviceIff`,
  `UsualDevicesAreKept`).
- A quote in a time bound makes the emitted text something other than the intended query, and nothing else does
  (`SqlQuery.GeneratedQueryMeansFilters`).

## Model

| member | source | states |
|---|---|---|
| `AgentEventList.AgentEventHandler.LoadEventList` | pkg/agentevent/handler/agentevent_handler.go:176-201 | start-up fills an empty list with the stored rows, newest first, numbered 1, 2, 3, ... and sets the counter to their number |
| `AgentEventList.AgentEventHandler.AddEventList` | pkg/agentevent/handler/agentevent_handler.go:126-136 | appending keeps the list the window of the newest events of the log, evicting one only when it is full |
| `AgentEventList.AppendedIsWindow` | pkg/agentevent/handler/agentevent_handler.go:126-132 | indices stay consecutive, the length never exceeds maxMessageLen + 1, and eviction only happens at that length |
| `AgentEventList.AppendedAllIsWindow` | pkg/agentevent/handler/agentevent_handler.go:126-136 | from start-up on the list is always the last maxMessageLen + 1 events of the log, or all of them |
| `AgentEventList.FirstEvictionDropsNewest` | pkg/agentevent/handler/agentevent_handler.go:176-201 | the first event evicted after start-up is the newest stored one; every older stored event is still there |
| `AgentEventList.AgentEventHandler.GetEvents` | pkg/agentevent/handler/agentevent_websocket.go:107-122 | the early-breaking backward scan returns every event above the offset, newest first, and no other |
| `AgentEventList.EventsAboveWindow` | pkg/agentevent/handler/agentevent_websocket.go:107-122 | what a listener still gets is the log from the later of its offset and the list front |
| `AgentEventList.AgentEventListener.Publish` | pkg/agentevent/handler/agentevent_websocket.go:77-105 | with an idle producer the publisher terminates, leaves its offset at the counter and sends exactly the drained stream |
| `AgentEventList.DrainedLength` | pkg/agentevent/handler/agentevent_websocket.go:86-103 | draining sends exactly counter minus offset events, all from the list, however few distinct ones it holds |
| `AgentEventList.DrainedOnce` | pkg/agentevent/handler/agentevent_websocket.go:86-103 | the drained stream is the missing part of the log, once and in order, if and only if none of it has been evicted |
| `AgentEventList.DrainedRepeats` | pkg/agentevent/handler/agentevent_websocket.go:86-103 | the exact stream of a lapped listener: the whole list again and again, then the rest of the log once |
| `AgentEventList.LapsEndCounts` | pkg/agentevent/handler/agentevent_websocket.go:95 | after the laps the offset has grown by the list length once per lap |
| `AgentEventProtocol.StepKeepsInv` | pkg/agentevent/handler/agentevent_websocket.go:57-105 | every atomic step of producer, publishers and clients keeps the protocol invariant |
| `AgentEventProtocol.ReachableInv` | pkg/agentevent/handler/agentevent_websocket.go:57-105 | the invariant holds in every reachable state, with any number of listeners |
| `AgentEventTheorems.ChannelNeverMisused` | pkg/agentevent/handler/agentevent_websocket.go:67-71 | no send on a closed channel and no double close in any interleaving; the channel closes after the publisher returned and its client never reads it closed |
| `AgentEventTheorems.LockExcludes` | pkg/agentevent/handler/agentevent_websocket.go:87-109 | while one publisher holds the lock no event is pushed, fetched or waited for, and no other publisher holds it |
| `AgentEventTheorems.SentMeansWriting` | pkg/agentevent/handler/agentevent_websocket.go:43-50 | an event that is sent is received once and then written, which may succeed, so that the client listens again, or fail |
| `AgentEventTheorems.FailedWriteStops` | pkg/agentevent/handler/agentevent_websocket.go:40-68 | in every reachable state a failed write puts the client into stop, and no later run delivers it another event |
| `AgentEventTheorems.StoppedIffWriteFailed` | pkg/agentevent/handler/agentevent_websocket.go:43-55 | over every run a listening client has stopped if and only if one of its own writes failed |
| `AgentEventTheorems.StopCanFinish` | pkg/agentevent/handler/agentevent_websocket.go:40-71 | a failed write followed by the whole handshake to the closed channel is reachable |
| `AgentEventTheorems.StopCanWait` | pkg/agentevent/handler/agentevent_websocket.go:67-93 | a client in stop whose publisher sleeps, with a broadcast about to come, is reachable |
| `AgentEventTheorems.NothingDeliveredAfterStop` | pkg/agentevent/handler/agentevent_websocket.go:40-71 | once the client is in stop, no schedule delivers it another event |
| `AgentEventTheorems.StopIsBounded` | pkg/agentevent/handler/agentevent_websocket.go:67-105 | a stopping listener makes at most nine more moves under any schedule |
| `AgentEventTheorems.StopNeverStuck` | pkg/agentevent/handler/agentevent_websocket.go:67-105 | it can always move, unless it waits for a broadcast or for a lock whose holder can release it at once |
| `AgentEventTheorems.OneBroadcastCompletesStop` | pkg/agentevent/handler/agentevent_websocket.go:88-93 | after the waking broadcast the publisher never waits again and its next five moves finish the handshake |
| `AgentEventTheorems.SkippedOnlyIfEvicted` | pkg/agentevent/handler/agentevent_websocket.go:86-103 | offset <= highest fetched index; everything up to it was fetched or evicted; the client has a prefix of the fetched stream |
| `AgentEventTheorems.ExactlyOnceUnlessLapped` | pkg/agentevent/handler/agentevent_websocket.go:86-103 | the stream is 1, 2, 3, ... each once if and only if the listener was never lapped |
| `AgentEventTheorems.ListenerCanBeLapped` | pkg/agentevent/handler/agentevent_websocket.go:40-95 | a lapped listener is reachable: a full history, two more events, then a client whose first fetch ends at event 1002 and lacks event 1 |
| `AgentEventTheorems.LappedAtFetch` | pkg/agentevent/handler/agentevent_websocket.go:86-93 | lapping is decided at a fetch by comparing the offset with the list front; a fetch is empty exactly when nothing is new |
| `AgentEventTheorems.OffsetCountsFetches` | pkg/agentevent/handler/agentevent_websocket.go:95 | the offset equals the number of events fetched, repeats included |
| `AgentEventTheorems.LostEqualsRepeated` | pkg/agentevent/handler/agentevent_websocket.go:86-95 | events lost = repeats + (highest index - offset), and every lost event was evicted |
| `AgentEventTheorems.DeliveryIsBounded` | pkg/agentevent/handler/agentevent_websocket.go:77-105 | while no event is added and the connection holds, every schedule lets a listener make only boundedly many moves |
| `AgentEventTheorems.QuietMeansDelivered` | pkg/agentevent/handler/agentevent_websocket.go:77-105 | a listener that cannot move waits for a lock whose holder can release it at once, or is in the wait and its client has all that was fetched; its offset is then, with the producer at rest, the end of the log exactly when no broadcast passed it by |
| `AgentEventTheorems.ProducerNeverStuck` | pkg/agentevent/handler/agentevent_handler.go:126-136 | the producer's next step is enabled, at once or after one move of the listener that holds the lock |
| `AgentEventTheorems.StrandedExactlyWhenMissed` | pkg/agentevent/handler/agentevent_websocket.go:86-93 | a waiting listener has undelivered events while the producer rests exactly when a broadcast passed it between fetch and wait |
| `AgentEventTheorems.WakeupCanBeLost` | pkg/agentevent/handler/agentevent_websocket.go:86-93 | such a state is reachable |
| `NodeMonitor.NodeMonitorHandler.constructor` | pkg/metric/service/monitor.go:35-45 | the handler captures timeout, master address and start time and knows no report times |
| `NodeMonitor.NodeMonitorHandler.Register` | pkg/metric/service/monitor.go:47-80 | registration inserts a dead row or rewrites identity fields only, and only on an active controller |
| `NodeMonitor.NodeMonitorHandler.KeepAlive` | pkg/metric/service/monitor.go:97-123 | a keep-alive revives the row if its write commits, and records the time even when the write is rolled back |
| `NodeMonitor.NodeMonitorHandler.CheckAliveTick` | pkg/metric/service/monitor.go:130-157 | one tick visits the listed rows and marks the overdue ones |
| `NodeMonitor.NodeMonitorHandler.MasterUp` | pkg/metric/service/monitor.go:165-172 | switches to standby only for its own master address |
| `NodeMonitor.NodeMonitorHandler.MasterDown` | pkg/metric/service/monitor.go:174-181 | switches to active only for its own master address |
| `NodeMonitor.NodeMonitorHandler.MasterOper` | pkg/metric/service/monitor.go:183-200 | the live and stored setting after read, write and reload outcomes, a half-written file included |
| `NodeMonitor.RegisterWritesIdentity` | pkg/metric/service/monitor.go:47-80 | field by field: what a committed registration inserts or rewrites, what it keeps, and that no other row changes |
| `NodeMonitor.RegisterWithoutCommit` | pkg/metric/service/monitor.go:50-78 | a registration that is rolled back or reaches a standby changes nothing |
| `NodeMonitor.KeepAliveWritesReport` | pkg/metric/service/monitor.go:97-118 | field by field: a committed keep-alive stores each reported value, keeps the host name, and no other row changes |
| `NodeMonitor.KeepAliveWithoutRow` | pkg/metric/service/monitor.go:97-120 | a keep-alive that is rolled back or names an unknown node records its time only; one never begun or on a standby nothing |
| `NodeMonitor.TickClearsOverdue` | pkg/metric/service/monitor.go:130-157 | field by field: a tick clears the status of a row exactly when a committed visit finds it overdue, and keeps every other row whole |
| `NodeMonitor.SwitchSetsMaster` | pkg/metric/service/monitor.go:165-200 | the live and stored setting a switch leaves for each file outcome, the address for up and none for down |
| `NodeMonitor.KnownMasterUnlessSpoiled` | pkg/metric/service/monitor.go:183-200 | a step keeps both settings empty or the captured address exactly unless it half-writes the file to a third one |
| `NodeMonitor.MasterIsEmptyOrCaptured` | pkg/metric/service/monitor.go:165-200 | over every run without such a write, whichever reads, writes and reloads fail, the master setting is empty or the captured address |
| `NodeMonitor.HalfWrittenMaster` | pkg/metric/service/monitor.go:174-200 | a half-written address that is reloaded turns an active controller into a standby that ignores ticks |
| `NodeMonitor.StandbyIsFrozen` | pkg/metric/service/monitor.go:47-160 | while it is not empty no registration, keep-alive or tick changes any row or report time |
| `NodeMonitor.DeadAfterVisits` | pkg/metric/service/monitor.go:138-155 | a tick takes a row to dead exactly when a committed visit finds it overdue |
| `NodeMonitor.AliveMeansRecent` | pkg/metric/service/monitor.go:130-157 | right after a full active tick every alive row has reported within the timeout |
| `NodeMonitor.RegisterCommutesWithVisit` | pkg/metric/service/monitor.go:47-80 | registration shares the read lock with a tick and commutes with each visit |
| `NodeMonitor.NoFalseAlarm` | pkg/metric/service/monitor.go:97-160 | no run within the timeout of a node's last report marks it dead |
| `NodeMonitor.ReportBuysTimeout` | pkg/metric/service/monitor.go:97-160 | a stored keep-alive keeps its node alive for the whole timeout |
| `NodeMonitor.ReportStaysVisible` | pkg/metric/service/monitor.go:97-160 | over every run within the timeout without another report of the node its row shows what the last one reported |
| `NodeMonitor.SilenceIsDetected` | pkg/metric/service/monitor.go:125-160 | a node silent since k is marked dead by a tick no later than k + 2 * timeout and stays dead |
| `NodeMonitor.DetectionBoundIsTight` | pkg/metric/service/monitor.go:139 | the bound 2 * timeout is reached |
| `NodeMonitor.RestartForgetsReports` | pkg/metric/service/monitor.go:38 | the first full tick of a fresh handler marks every node that has not reported to this process |
| `AesCodec.UnpadPad` | pkg/util/aes.go:12-25 | unpad undoes pad |
| `AesCodec.PadSpelled` | pkg/util/aes.go:12-16 | 1 to 16 bytes are appended, each of value their number, up to the next multiple of 16 |
| `AesCodec.UnpadCuts` | pkg/util/aes.go:18-25 | exactly the bytes the last one counts are cut off; when it errs and when it panics |
| `AesCodec.UnpadIsExactOnWellPadded` | pkg/util/aes.go:18-25 | an accepted input is what pad makes of the answer if and only if it was well padded |
| `AesCodec.CbcRoundTrip` | pkg/util/aes.go:33-50 | CBC decryption undoes CBC encryption for any invertible block cipher |
| `AesCodec.ZeroVectorIsNeutral` | pkg/util/aes.go:34-35 | the zero initial vector leaves the first block unmasked |
| `AesCodec.CbcEncryptBlock` | pkg/util/aes.go:33-36 | each ciphertext block enciphers its plaintext block added to the previous ciphertext block |
| `AesCodec.EncryptBlocks` | pkg/util/aes.go:33-36 | the chained blocks are written behind the unused first block of the buffer |
| `AesCodec.CbcDecryptBlock` | pkg/util/aes.go:48-50 | a plaintext block depends on its own and the previous ciphertext block only |
| `AesCodec.DecryptBlocksInPlace` | pkg/util/aes.go:48-50 | decrypting over the input buffer yields the CBC decryption of its old content |
| `AesCodec.HexRoundTrip` | pkg/util/aes.go:37-46 | base16 decoding undoes encoding |
| `AesCodec.HexSpelled` | pkg/util/aes.go:37 | the high half of each byte gives the first digit and the low half the second |
| `AesCodec.DigitWritten` | pkg/util/aes.go:37 | the digit written for each value |
| `AesCodec.DigitRead` | pkg/util/aes.go:46 | the value read for each digit, in either case of a letter, and nothing else is a digit |
| `AesCodec.Encrypt` | pkg/util/aes.go:27-39 | the method computes pad, CBC with a zero vector, base16, or the key error |
| `AesCodec.Decrypt` | pkg/util/aes.go:41-56 | the method computes base16, CBC in place, unpad, or the error or panic |
| `AesCodec.KeyLengths` | pkg/util/aes.go:27-45 | both calls accept keys of 16, 24 and 32 bytes and err for every other length |
| `AesCodec.EncryptedText` | pkg/util/aes.go:27-39 | read as base16 the text is the CBC encryption of the padded input from a zero vector |
| `AesCodec.DecryptUndoesEncrypt` | pkg/util/aes.go:27-56 | for every valid key and byte string decryption recovers the input; the ciphertext has 32 * (len / 16 + 1) digits |
| `AesCodec.EncryptIsInjective` | pkg/util/aes.go:27-39 | equal ciphertexts exactly for equal texts |
| `AesCodec.DecryptIgnoresBadTail` | pkg/util/aes.go:46 | text after the first bad digit pair of a ciphertext is ignored |
| `AesCodec.DecryptPanicsIff` | pkg/util/aes.go:18-50 | which inputs make decryption panic |
| `Cidr.AnswerByLeadingBits` | pkg/util/filter.go:44-65 | the whole answer: an error exactly for what does not parse, else agreement of the leading bits and, for a subnet, a length of 0 or no shorter than the prefix |
| `Cidr.ContainsIffInRange` | pkg/util/filter.go:56-62 | masked comparison decides membership in the address range |
| `Cidr.InsideIff` | pkg/util/filter.go:54-56 | block containment is a matching address and a prefix that is no shorter |
| `Cidr.SubnetAnswerIsRightIff` | pkg/util/filter.go:50-57 | the subnet answer is range containment for all inputs but one exactly described family |
| `Cidr.ZeroLengthSubnetIsMisjudged` | pkg/util/filter.go:56 | a member of that family |
| `Cidr.AddressAnswerIsRight` | pkg/util/filter.go:58-63 | the address answer is always range membership |
| `Cidr.ContainmentIsReflexive` | pkg/util/filter.go:44-65 | every prefix contains itself |
| `Cidr.ContainmentIsTransitive` | pkg/util/filter.go:44-65 | containment chains, within the same family of inputs |
| `Cidr.ContainmentIsAntisymmetric` | pkg/util/filter.go:44-65 | mutual containment means the same length and masked bits |
| `NodeMetrics.GetPeriodFromFilters` | pkg/metric/handler/node_handler.go:50-63 | the first allowed value over all period filters, or "6" |
| `NodeMetrics.PeriodAnswer` | pkg/metric/handler/node_handler.go:50-63 | the answer is the first allowed value of the first equality filter named "period" that holds one |
| `NodeMetrics.AllowedPeriods` | pkg/metric/handler/node_handler.go:54-62 | the six allowed texts, and "6" when no period filter holds one |
| `NodeMetrics.PeriodExamples` | pkg/metric/handler/node_handler.go:50-63 | literal filters and their answers |
| `NodeMetrics.AllowedPeriodsAreGrids` | pkg/metric/handler/node_handler.go:65-72 | every allowed period spans exactly 300 steps |
| `NodeMetrics.GetTimestampAndValue` | pkg/metric/handler/node_handler.go:115-129 | the last number, truncated, and the last text of a sample |
| `NodeMetrics.LastNumber` | pkg/metric/handler/node_handler.go:115-129 | the timestamp is the last number of the sample, its fraction dropped |
| `NodeMetrics.LastText` | pkg/metric/handler/node_handler.go:115-129 | the value is the last text of the sample |
| `NodeMetrics.NoNumberNoText` | pkg/metric/handler/node_handler.go:116-128 | without a number the timestamp is 0 and without a text the value is empty |
| `NodeMetrics.TruncateDropsFraction` | pkg/metric/handler/node_handler.go:119 | the fraction is dropped toward zero |
| `NodeMetrics.InGridIff` | pkg/metric/handler/node_handler.go:108 | the write index is in bounds exactly for Begin - Step < t < Begin + 301 * Step |
| `NodeMetrics.SlotIndexIff` | pkg/metric/handler/node_handler.go:108 | which timestamps map to which slot, with rounding toward zero |
| `NodeMetrics.EmptySlots` | pkg/metric/handler/node_handler.go:97-103 | the grid loop terminates with 301 slots at the right times |
| `NodeMetrics.SlotHoldsLastSample` | pkg/metric/handler/node_handler.go:96-113 | slot k carries the k-th grid time and the number of the last sample written into its interval, or 0 when there is none |
| `NodeMetrics.GetRatiosWithTimestamp` | pkg/metric/handler/node_handler.go:96-114 | each slot holds the last parseable sample that maps to it, or 0; the call panics exactly when a written sample is off the grid |
| `NodeUsage.SkippedDeviceIff` | pkg/metric/handler/node_handler.go:345-348 | which device names the network usage leaves out |
| `NodeUsage.UsualDevicesAreKept` | pkg/metric/handler/node_handler.go:345-348 | "docker0" and a "veth" name are not left out |
| `NodeUsage.CollectSeries` | pkg/metric/handler/node_handler.go:282-293 | the bucketed series of all matching results in order, or a panic |
| `NodeUsage.OneCollected` | pkg/metric/handler/node_handler.go:344-350 | which results a node takes, by their instance and device labels |
| `NodeUsage.CollectedConcat` | pkg/metric/handler/node_handler.go:282-293 | a response is read result by result, in order |
| `NodeUsage.SumColumn` | pkg/metric/handler/node_handler.go:357-364 | the sum of one slot over all series |
| `NodeUsage.Node.ResolveNetworkValues` | pkg/metric/handler/node_handler.go:343-367 | appends one summed slot per grid slot, or nothing when no series matches |
| `NodeUsage.Node.ResolveDiscValues` | pkg/metric/handler/node_handler.go:280-324 | appends one ratio per grid slot, errs exactly when the series counts differ |
| `NodeUsage.ResolveNetworkValues` | pkg/metric/handler/node_handler.go:341-371 | the loop over the nodes: which nodes gain what, also when it stops at a sample off the grid |
| `NodeUsage.ResolveDiscValues` | pkg/metric/handler/node_handler.go:278-327 | the same for discs, stopping at the first mismatch or sample off the grid |
| `NodeUsage.TotalsAgree` | pkg/metric/handler/node_handler.go:354-367 | the total over slots equals the total over series |
| `NodeUsage.NetworkUsageConserves` | pkg/metric/handler/node_handler.go:354-367 | network usage adds up to the total of the kept series |
| `NodeUsage.NetworkSlot` | pkg/metric/handler/node_handler.go:354-366 | one series is shown as it is and each further one adds its value slot by slot |
| `NodeUsage.NetworkOutcomeMeans` | pkg/metric/handler/node_handler.go:351-366 | each slot of a node carries its grid time and the sum over the kept series; without series nothing is appended |
| `NodeUsage.DiscSlot` | pkg/metric/handler/node_handler.go:318-322 | ratio * total = total - free in every slot, 0 without a total; hence 0 for an unused and 1 for a full disc |
| `NodeUsage.UsageFallsAsFreeGrows` | pkg/metric/handler/node_handler.go:318-319 | more free space means a smaller ratio |
| `NodeUsage.DiscOutcomeMeans` | pkg/metric/handler/node_handler.go:280-324 | a node errs exactly when its series counts differ; otherwise each slot carries its grid time and the used share |
| `NodeUsage.PanicsOffGrid` | pkg/metric/handler/node_handler.go:96-114 | a node's part panics exactly when one of its kept results has a written sample off the grid |
| `NodeUsage.DiscUsageIsARatio` | pkg/metric/handler/node_handler.go:318-322 | the disc ratio lies in [0, 1] when free never exceeds total |
| `SqlQuery.CollectConditions` | pkg/util/sql.go:21-42 | the condition map holds the last valid equality filter per listed name; the time bounds are the last valid ones or the defaults |
| `SqlQuery.LastIs` | pkg/util/sql.go:26-41 | the last equality filter of a name with one value decides; all others are passed over |
| `SqlQuery.TimeBoundNames` | pkg/util/sql.go:30-41 | the bounds come from the last filters "from" and "to" unless these names are listed as columns |
| `Filters.EqValueIff` | pkg/util/filter.go:36-42 | a filter has a value exactly when it is an equality with one value |
| `SqlQuery.WriteConditions` | pkg/util/sql.go:44-54 | every condition is written once, numbered by its argument, in an arbitrary order |
| `SqlQuery.GenSqlAndArgsByFilters` | pkg/util/sql.go:20-68 | for any iteration order the emitted text means what the filters say: it parses exactly when the time bounds hold no quote, and then selects the wanted rows |
| `SqlQuery.OneConditionText` | pkg/util/sql.go:49-54 | the exact text of a condition |
| `SqlQuery.TimeRangeText` | pkg/util/sql.go:56-66 | the exact text of the time clause |
| `SqlQuery.LiteralTexts` | pkg/util/sql.go:13-18 | every literal part of the text spelled out, the table prefix included |
| `SqlQuery.ParseConditions` | pkg/util/sql.go:49-54 | the written conditions parse back to column and placeholder pairs |
| `SqlQuery.ParseTimeIff` | pkg/util/sql.go:56-66 | the time clause parses, to its own literals, if and only if they hold no quote |
| `SqlQuery.GeneratedQueryMeansFilters` | pkg/util/sql.go:20-68 | for every row and iteration order the text with its arguments selects what the filters ask for; placeholders are 1..n |
| `Authorization.AuthorityMap.CreateBaseAuthority` | pkg/auth/authorization/authorization.go:39-48 | the base map: base, DNS and DHCP entries, later ones winning |
| `Authorization.AuthorityMap.CreateViewAuthority` | pkg/auth/authorization/authorization.go:50-66 | overwrites the DNS entries with the given views |
| `Authorization.AuthorityMap.CreateDhcpAuthority` | pkg/auth/authorization/authorization.go:68-84 | overwrites the DHCP entries with the given plans |
| `Authorization.FullMapLookup` | pkg/auth/authorization/authorization.go:39-84 | which template entry a resource ends with: DHCP over DNS over base, last one of a list |
| `Authorization.FullMapIsKeyed` | pkg/auth/authorization/authorization.go:39-84 | every entry is stored under its own resource name |
| `Authorization.NoRolesIsNoViews` | pkg/auth/handler/user_handler.go:172-174 | the early return agrees with the general path at an empty view list |
| `Authorization.CheckView` | pkg/auth/authentification/authentification.go:162-181 | no id, no views, or a view that is the resource or an ancestor |
| `Authorization.CheckAuthority` | pkg/auth/authentification/authentification.go:133-160 | the answer is the same for every iteration order; on a keyed map the passed-on views are those of the matching entry |
| `Authorization.DecisionIsRule` | pkg/auth/authentification/authentification.go:133-181 | the decision depends on the set of views only |
| `Authorization.MapFollowsRule` | pkg/auth/authorization/authorization.go:50-84 | the map built from views and plans decides as the documented rule says, on the two sets only |
| `Authorization.FilteredDnsRule` | pkg/auth/authorization/authorization.go:50-66 | the set-theoretic rule for a filtered DNS resource |
| `Authorization.DecideAlikeIff` | pkg/auth/authentification/authentification.go:133-181 | two view sets decide all requests alike exactly when they are equal or no entry in force looks at views |
| `Authorization.RefusedWithoutPlans` | pkg/auth/handler/user_handler.go:190-193 | exactly which requests the documented rule allows and the code, leaving the plans out, refuses; it never allows more |
| `Authorization.DocumentedRuleKeptIff` | pkg/auth/handler/user_handler.go:190-193 | both rules agree on all requests exactly without plans or without resources filtered by plans |
| `Authorization.FilteredDhcpRule` | pkg/auth/authorization/authorization.go:68-84 | the code's rule makes a filtered DHCP resource GET only |
| `Authorization.BaseResourceRule` | pkg/auth/authentification/authentification.go:133-181 | a resource of neither list is decided by its base entry alone and refused without one |
| `Authorization.VerbsSpelled` | pkg/auth/authorization/authorization.go:54-62 | the read-only and the full verb list |
| `Authorization.PassedOn` | pkg/auth/authentification/authentification.go:145-151 | which views and plans the matching entry passes on to later filters |
| `UserAuthority.RecombineSlices` | pkg/auth/handler/user_handler.go:132-152 | duplicate-free union or difference |
| `UserAuthority.Ddiuser.ReloadUserAuthority` | pkg/auth/handler/user_handler.go:154-196 | the reload relation for a NORMAL user; a SUPER user is left alone |
| `UserAuthority.ReloadIsIdempotent` | pkg/auth/handler/user_handler.go:154-196 | a second reload keeps role ids up to order and every decision |
| `UserAuthority.DnsRequestRule` | pkg/auth/handler/user_handler.go:154-196 | end to end: the decision follows the union of views over direct and group roles |
| `UserAuthority.CollectRoles` | pkg/auth/handler/user_handler.go:176-188 | the loop over the roles gathers exactly their views and their plans |
| `UserAuthority.PlansGrantNothing` | pkg/auth/handler/user_handler.go:183-193 | two role tables that differ in plans only lead to the same decision after a reload |
| `UserAuthority.PlanPromiseKeptIff` | pkg/auth/handler/user_handler.go:183-193 | after a reload all requests are decided by the documented rule exactly when the roles hold no plan or no resource is filtered by plans |
| `UserAuthority.PlanIsIgnored` | pkg/auth/handler/user_handler.go:183-193 | a role with one prefix and a PUT that the documented rule allows and the code refuses |
| `AuthStore.AesVaultIsFaithful` | pkg/auth/handler/user_handler.go:75-79 | a stored password matches exactly the password it was made from |
| `AuthStore.PasswordCheckIsLastSet` | pkg/auth/handler/user_handler.go:66-83 | over all runs the check succeeds exactly for an existing user and its most recently set password |
| `AuthStore.StartUpIsSealed` | pkg/auth/handler/user_handler.go:28-64 | after start-up every user has a session and an administrator exists |
| `AuthStore.StartUpSessions` | pkg/auth/handler/user_handler.go:28-64 | after start-up every stored user has a session for its row, a missing administrator a SUPER one, and the tables are kept |
| `AuthStore.FixedTexts` | pkg/auth/handler/user_handler.go:20-47 | the fixed key and the first administrator password are the bytes of their texts |
| `AuthStore.CreatedUser` | pkg/auth/handler/user_handler.go:103-130 | a new user is NORMAL with exactly the requested ids, its sealed password and a session for them; nothing else changes |
| `AuthStore.UpdatedUser` | pkg/auth/handler/user_handler.go:198-226 | the stored row ends with exactly the requested ids, the new session holds their roles and views, and nothing else changes; strangers change nothing |
| `AuthStore.DeletedUser` | pkg/auth/handler/user_handler.go:228-243 | row and session of anyone but the administrator go, and nothing else changes |
| `AuthStore.LoginAndLogout` | pkg/auth/authentification/authentification.go:69-86 | a login opens a session for the stored row exactly on the right password; a logout drops the session only |
| `AuthStore.StoredPassword` | pkg/auth/handler/user_handler.go:317-379 | who may store a new password, and that only that password changes |
| `AuthStore.SessionIffLatestOpened` | pkg/auth/authentification/authentification.go:118-121 | a user has a session exactly when its latest session event opened one |
| `AuthStore.NoSessionNoAdmission` | pkg/auth/authentification/authentification.go:118-121 | without a session no request is admitted |
| `AuthStore.AdmissionBySession` | pkg/auth/authentification/authentification.go:118-130 | with one the administrator always is, another SUPER user never, and a NORMAL user by its views |
| `AuthStore.AdmittedOnlyWhileOpen` | pkg/auth/authentification/authentification.go:118-130 | over every run an admitted user had its session opened by its latest session event, or by start-up |
| `AuthStore.LoggedOutIsRefused` | pkg/auth/handler/user_handler.go:293-300 | after a logout no request is admitted, over every run in which the user does not log in and is not created or updated |
| `AuthStore.SessionsIgnoreGroupsAndRoles` | pkg/auth/handler/role_handler.go:100-120 | group and role changes never alter an open session's decisions |
| `AuthStore.LoginRefreshesAuthority` | pkg/auth/authentification/authentification.go:69-82 | after a login every request is decided by the views of the roles and groups stored now |
| `AuthStore.LoginDnsRule` | pkg/auth/authentification/authentification.go:69-82 | the same, spelled out for a filtered DNS resource |
| `AuthStore.SessionStaysRightIff` | pkg/auth/handler/usergroup_handler.go:118-147 | after any run of group and role changes an open session decides like a login now exactly when the views stored for the user are unchanged or no entry looks at views |
| `AuthStore.RoleUpdateKeepsSessionRightIff` | pkg/auth/handler/role_handler.go:39-58 | for a role update the condition before the call: the session's roles yield the same views from the updated table |
| `AuthStore.SessionCanBeStale` | pkg/auth/handler/role_handler.go:39-58 | a run after which a user may still write to a view that none of its roles has any more |
| `AuthStore.DeletedGroupStaysUnlisted` | pkg/auth/handler/usergroup_handler.go:58-78 | no row lists a deleted group, also after any run that does not name it |
| `AuthStore.SavedGroupIsJoined` | pkg/auth/handler/usergroup_handler.go:25-56 | every listed existing user is in the group and, unless SUPER, has its roles |
| `AuthStore.SavedGroupRows` | pkg/auth/handler/usergroup_handler.go:118-147 | the whole new row of each listed user, and that every other row is left alone |
| `AuthStore.DeletedGroupRows` | pkg/auth/handler/usergroup_handler.go:118-147 | the whole new row of each member, and that every other row is left alone |
| `AuthStore.UpdatedRoleRows` | pkg/auth/handler/role_handler.go:100-120 | the whole new row of each user that has the role, and that every other row is left alone |
| `AuthStore.CreatedAndDeletedRole` | pkg/auth/handler/role_handler.go:25-77 | creating and deleting a role touches its own entry of the role table only |
| `AuthStore.TakenIdIsRefused` | pkg/auth/handler/usergroup_handler.go:25-38 | a create with a taken id changes nothing |
| `AuthStore.RolesOnlyGrow` | pkg/auth/handler/usergroup_handler.go:118-147 | runs of group and role changes never take a role id from a row |
| `AuthStore.GroupRolesOutliveTheGroup` | pkg/auth/handler/usergroup_handler.go:58-78 | what is left of a group after it was joined and deleted, and when that is nothing |
| `AuthStore.DeletedRoleStaysAway` | pkg/auth/handler/role_handler.go:60-77 | a role is deleted exactly while unused; the deleted role stays out of all rows over every later run that does not name it, if and only if no group lists it |
| `AuthStore.DeletedRoleCanReturn` | pkg/auth/handler/role_handler.go:60-77 | for any group that still lists it, a run of two steps that do not name it and that bring it back |
| `AuthHandlers.Handlers.constructor` | pkg/auth/handler/user_handler.go:28-64 | start-up is the store's start-up state |
| `AuthHandlers.Handlers.UserCreate` | pkg/auth/handler/user_handler.go:103-130 | makes the store's create step; errs on an empty password or a taken name |
| `AuthHandlers.Handlers.UserUpdate` | pkg/auth/handler/user_handler.go:198-226 | makes the store's update step; errs for another user's row |
| `AuthHandlers.Handlers.UserDelete` | pkg/auth/handler/user_handler.go:228-243 | makes the store's delete step; errs for the administrator |
| `AuthHandlers.Handlers.Logout` | pkg/auth/handler/user_handler.go:293-300 | ends the caller's session |
| `AuthHandlers.Handlers.Login` | pkg/auth/authentification/authentification.go:69-86 | opens a session exactly on a correct password |
| `AuthHandlers.Handlers.ChangePassword` | pkg/auth/handler/user_handler.go:317-347 | makes the store's password step |
| `AuthHandlers.Handlers.ResetPassword` | pkg/auth/handler/user_handler.go:349-379 | makes the store's password step, administrator only |
| `AuthHandlers.Handlers.GroupCreate` | pkg/auth/handler/usergroup_handler.go:25-38 | makes the store's group step |
| `AuthHandlers.Handlers.GroupUpdate` | pkg/auth/handler/usergroup_handler.go:40-56 | makes the store's group step |
| `AuthHandlers.Handlers.GroupDelete` | pkg/auth/handler/usergroup_handler.go:58-78 | makes the store's group step |
| `AuthHandlers.Handlers.UpdateUserGroupAuthority` | pkg/auth/handler/usergroup_handler.go:118-147 | the loop rewrites exactly the selected rows, in any order |
| `AuthHandlers.Handlers.RoleCreate` | pkg/auth/handler/role_handler.go:25-37 | makes the store's role step |
| `AuthHandlers.Handlers.RoleUpdate` | pkg/auth/handler/role_handler.go:39-58 | makes the store's role step |
| `AuthHandlers.Handlers.UpdateRoleAuthority` | pkg/auth/handler/role_handler.go:100-120 | the loop rewrites exactly the rows that have the role |
| `AuthHandlers.Handlers.RoleDelete` | pkg/auth/handler/role_handler.go:60-77 | refuses a role that some row has |
| `AuthHandlers.Handlers.Authentification` | pkg/auth/authentification/authentification.go:118-130 | admits a request exactly as the store's rule says |

## Left out

- Generated protobuf code, gRPC clients and servers, and `pkg/business`: message copying around remote services.
- Kafka, websocket framing, HTTP, TLS, Prometheus requests, CSV export and configuration loading: I/O.
- The SQL engine: tables are maps, a handler is one atomic step that commits or changes nothing.
- Ids that contain quotes or commas in a joined "in" list.
- AES itself, token signing and expiry, and Go's address parser: the cipher is an invertible family, prefixes start
  from parsed bits, tokens are already verified. IPv4-mapped IPv6 addresses count as IPv4 before the model starts.
- Number parsing and formatting: ratios stay real numbers, so rounding to two or four digits is not modelled.
- Overflow of event indices, of timestamps and of float64 to int64 conversion.
- `GenStrConditionsFromFilters`, `ViewFilter`, `PrefixFilter`, the white list, name checks and audit logging: thin or
  easy.
- The CPU and memory variants of the metric loops, which store one bucketed series per node, and the wall-clock
  dates that default the time bounds of a query.
- `cleanAgentEventHistory` and the deletion inside `loadEventList`: they touch stored rows only.
- An update or delete of a missing row is a step without effect on that table; deleting a missing group, which
  panics in the source, is a step that changes nothing.
- Edits of the configuration file by anyone else between two master switches.
- In `AgentEventProtocol`, a batch fetch is one atomic step (readers share the lock), and the wait of `cond.Wait`
  registers and unlocks in one step, as the library promises.
- Cached users are values: a handler that keeps changing a user object after storing it (clearing the password) is
  not visible in the model, since the cache never compares passwords.
