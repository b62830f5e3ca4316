# NVRA control plane: a verified model

NVRA is a trading control plane written in Python. Most of it is user interface, records and file stores; this project
models the parts whose behaviour is decided by their own code, and proves what those parts keep over every input, every
run or every interleaving of calls.

Each component has its own module. Where the Python code is an object that updates its fields, the module has a class
with the same fields whose methods are proved equal to a function on values (`Model() == Spec(old(Model()), ...)`), and
the theorems are lemmas about that function and about all runs of it. Where the Python code is an expression, the module
has functions only.

- **IPC stream** (`Framing`, `Envelope`, `TcpTransport`): length-prefixed frames over a socket that delivers arbitrary
  chunks; the JSON envelope; send, receive and request/reply matching. A stream round-trips for every way of cutting it
  if and only if no body exceeds 16 MiB.
- **Virtual broker** (`VirtualBroker`, `VirtualBrokerLaws`, `VirtualBrokerConduct`): an account with fees, marks and an
  idempotency map. Balance and equity are explained by the book in every reachable state, equity follows the market by
  what is held long and short, and replays are invisible.
- **Live path** (`LivePreflight`, `LiveAuthorization`, `LiveController`, `LiveSafety`, `LiveConduct`): the authorization
  gate and the execution controller as two coupled machines. When a broker call can happen, what a kill switch takes to
  undo, what the risk counters mean, and exactly what arms, disarms and refuses.
- **Circuit breaker** (`CircuitBreaker`, `CircuitHistory`): a timed machine whose every answer is told by its history,
  with a tight bound on calls to a dead service.
- **Bounded stores and queues** (`ShadowStore`, `MessageBus`, `InstitutionalKernel`).
- **Control loop** (`ControlCycle`, `Quotes`, `StreamHealth`, `AutonomousLoop`, `LoopConduct`): logged walks on the
  control graph, the quote and stream checks, the driver that brings every cycle to rest but those that validate an
  undated quote, and how the decision decides the way of a cycle.
- **Market data to discovery** (`MarketData`, `Observations`, `Ranking`, `Discovery`, `DiscoveryLaws`): two bar filters,
  the observation built from a cleaned series, discovery's check of it, the ranking and the final status. The chain is
  proved end to end: what ingestion marks VALID, discovery accepts, and one allowed strategy then makes the run ELIGIBLE.
- **Capital safety** (`Capital`, `CapitalLaws`), **order lifecycle** (`OrderLifecycle`), **import audit** (`ImportGraph`).
- `Common` holds the string order, the stable sort and a few facts about sequences.

Modelling choices: money and time are exact reals; result and transition ids are taken to be free of collisions, while
nothing is assumed of the hashes behind intent and candidate ids; fresh identifiers are ones not used before; injected
collaborators (broker, risk gate, executor, policy, decision engine, capital gate) may answer anything the code can
receive from them. A library call the code relies on is a parameter without assumed laws; the results about decoded
messages ask one thing, and only of the messages sent: that `loads` reads back what `dumps` wrote for them.

Where the code does something its names or documentation do not suggest, the model follows the code and a lemma says so:

- The sender checks no 16 MiB limit, and the receiver never consumes an oversize header: such a frame blocks the stream
  for good (`Framing.RoundTripExactly`, `Framing.OversizeIsStuckForever`).
- A `DEMO` gate leaves demo mode through safe mode or a policy resume, and can then be armed
  (`LiveAuthorization.DemoIsLeftExactlyBy`, `LiveAuthorization.DemoGateCanBeArmed`).
- The bounded shadow store bounds its index, not its revision table (`ShadowStore.TableHoldsEveryRoot`).
- A handler subscribed both to a topic and to `*` gets each message twice (`MessageBus.DeliveredExactly`).
- `PAPER_EXECUTION` is always preceded by the state `EXECUTION_INTENT`, but a cycle without an entry passes through both
  without registering an intent (`AutonomousLoop.AutonomousControlLoop.SkipEntry`).
- A dropped bar without a price still hides earlier-stamped good bars after it (`MarketData.PricelessBarsShadow`); a bar
  with only a high or a low passes the integrity filter but has no price to read, so a timestamp can end up beside
  another bar's price (`Observations.IntegrityCanMisalign`); when it does not is exactly `Observations.OwnTimestampsExactly`.
- A quote without a timestamp makes `validate_quote` raise (`Quotes.ValidateQuote`), which the loop does not catch, so its
  cycle stays in VALIDATING until it is resumed (`AutonomousLoop.AutonomousControlLoop.RunCycle`,
  `AutonomousLoop.UntimedQuoteBreaksOff`).
- An evidence key joins references with a bar, so one reference that holds a bar counts as two
  (`CapitalLaws.KeysCanCollide`); without bars and empty references it tells them apart (`CapitalLaws.KeyTellsEvidence`).
- A repeated capital hint is ignored, even BLOCK (`CapitalLaws.RepeatedHintIsIgnored`, `CapitalLaws.BlockCanBeIgnored`),
  and ALLOW alone never gets a fresh engine to NORMAL (`CapitalLaws.AllowAloneStaysUnknown`).
- Four branches are proved dead: the detour over FAILED in a safe stop (`AutonomousLoop.StopNeverFails`), the second
  expiry test of a cycle (`AutonomousLoop.AutonomousControlLoop.EnterPosition`), the future-last-bar test
  (`MarketData.FutureLastBarIsDead`) and the fallback of a capital hint (`Capital.UnknownIsAlwaysOpen`).

`dafny verify dfyconfig.toml` checks the whole project. Nothing was executed.

## Model

| member | source | states |
|---|---|---|
| Framing.UnpackPack | god/ipc/tcp.py:104 | The four-byte big-endian header of a length reads back as that length. |
| Framing.PackUnpack | god/ipc/tcp.py:169 | Every four bytes are the header of exactly one length. |
| Framing.HeadersOrderAsLengths | god/ipc/tcp.py:104 | The first byte in which two headers differ tells which length is smaller: the order is big-endian. |
| Framing.ParseOfFrame | god/ipc/tcp.py:166-175 | Parsing undoes framing, whatever bytes follow, exactly for bodies of at most 16 MiB; a longer one reads as too large. |
| Framing.FrameOfParse | god/ipc/tcp.py:166-175 | A parsed body came from its own frame and nothing else, and what follows it is left in the buffer. |
| Framing.ParseIsStable | god/ipc/tcp.py:166-175 | More bytes never change how a complete frame or an oversize header was read. |
| Framing.DrainIsIncremental | god/ipc/tcp.py:117-136 | Draining a prefix and then the leftover with the suffix equals draining the whole. |
| Framing.ChunkingDoesNotMatter | god/ipc/tcp.py:117-136 | Any split of the bytes into chunks, drained after each chunk, yields the same bodies and leftover as the concatenation. |
| Framing.DrainOfStream | god/ipc/tcp.py:166-180 | Frames within the limit come out one by one and in order, and whatever follows is drained as if alone. |
| Framing.OversizeIsStuckForever | god/ipc/tcp.py:169-171 | After an oversize header no later chunk lets any body through. |
| Framing.RoundTripExactly | god/ipc/tcp.py:96-180 | For every chunking, a sent stream arrives whole and leaves an empty buffer if and only if no body exceeds 16 MiB. |
| Framing.OversizeStopsTheStream | god/ipc/tcp.py:166-180 | Everything before the first oversize frame is delivered; that frame and all after it stay buffered. |
| Framing.CompleteFramesFit | god/ipc/tcp.py:166-175 | The count of complete frames within n bytes is the largest k whose frames fit. |
| Framing.PartialArrival | god/ipc/tcp.py:166-175 | Before all bytes have arrived, exactly the complete frames have been delivered and the remaining bytes are held. |
| Framing.DamageIsContained | god/ipc/tcp.py:174-180 | A frame with any body of legal length is one element of the output, and the frames around it come out as if it had not been sent. |
| Envelope.TypeNamesAreDistinct | god/ipc/models.py:20-38 | Each of the seventeen type names reads back as its own type. |
| Envelope.FieldsOfDict | god/ipc/models.py:66-79 | Under which key of the dictionary each field of a message stands. |
| Envelope.EnvelopeRoundTrip | god/ipc/models.py:66-106 | `from_dict(to_dict(m)) == m` for every message: no field is lost or defaulted. |
| Envelope.AcceptedExactly | god/ipc/models.py:84-106 | A dictionary is a message exactly if its type is one of the seventeen names and its sequence and payload convert; any other type, or no dictionary, is a ValueError. |
| Envelope.MissingFieldsDefault | god/ipc/models.py:96-106 | A type alone makes a message: every missing field takes its default. |
| Envelope.FalsyExactly | god/ipc/models.py:96-106 | Which values of a field count as missing, and that texts, integers and dictionaries are taken as they are. |
| Envelope.TruncatesTowardsZero | god/ipc/models.py:104 | A fractional sequence number is cut off towards zero. |
| Envelope.CodecRoundTrip | god/ipc/models.py:81-110 | Decoding an encoded message gives it back, if the JSON text of that one message reads back. |
| Envelope.CodecFor | god/ipc/models.py:81-110 | What is asked of the text layer can be met: for any messages there is one that reads all of them back. |
| TcpTransport.TcpTransport.constructor | god/ipc/tcp.py:23-46 | A new transport is disconnected with sequence 0 and an empty buffer, even with an injected socket. |
| TcpTransport.TcpTransport.Connect | god/ipc/tcp.py:55-74 | Connecting empties the buffer unless already connected; a failed dial leaves the transport disconnected. |
| TcpTransport.TcpTransport.Disconnect | god/ipc/tcp.py:80-94 | Socket and buffer are gone; the sequence counter is kept. |
| TcpTransport.TcpTransport.Send | god/ipc/tcp.py:96-110 | Sends exactly the frame of the message, stamped only if it carried number 0; the counter grows even when the send fails; a failure may leave a prefix of the frame on the wire. |
| TcpTransport.StampedOnce | god/ipc/tcp.py:100-102 | A stamp fills in a missing number, is never overwritten by a later one, and touches no other field. |
| TcpTransport.TcpTransport.TryParse | god/ipc/tcp.py:166-180 | Removes exactly the first complete frame, also when its body is malformed, and nothing when there is none or it is too large. |
| TcpTransport.LooksExactly | god/ipc/tcp.py:166-180 | How one look at the buffer reads it, byte for byte: the big-endian length of the first four bytes decides between too large, wait, and a frame; only a whole frame leaves the buffer. |
| TcpTransport.TcpTransport.RecvChunk | god/ipc/tcp.py:125-136 | One socket answer: data is appended, a timeout changes nothing, an error or an empty chunk disconnects. |
| TcpTransport.TcpTransport.Receive | god/ipc/tcp.py:112-136 | Returns the earliest complete message of the bytes that had arrived, having read no more socket answers than it needed. |
| TcpTransport.TcpTransport.Request | god/ipc/tcp.py:138-152 | Writes exactly the frame of the stamped request, then returns the first complete message whose request id or correlation id is the one asked for; exactly the frames up to it are consumed, every earlier one with neither id, and the bytes after it stay buffered; the same for each way of failing. |
| TcpTransport.TcpTransport.SendRun | god/ipc/tcp.py:96-110 | A run of sends writes the concatenated frames of the messages as stamped from the counter, and ends early only at a message too long for the length field. |
| TcpTransport.TcpTransport.ReceiveRun | god/ipc/tcp.py:112-136 | A run of receives takes one frame off the stream for each message it returns, decoded from it in order, and leaves the rest buffered; a malformed frame ends it and is gone. |
| TcpTransport.StampedAt | god/ipc/tcp.py:100-102 | The i-th of a run of sends gets number counter + i + 1, unless it already had one. |
| TcpTransport.SentMessagesArrive | god/ipc/tcp.py:96-180 | Messages sent in a run, whose JSON text reads back, are decoded as stamped and in order, for every chunking of their frames, if and only if no body exceeds the receiver's limit. |
| TcpTransport.FramesArePrefix | god/ipc/tcp.py:117-136 | A stream that begins with some frames is a stream of bodies that begin with theirs. |
| TcpTransport.ReceivedIsPrefixOfSent | god/ipc/tcp.py:96-180 | However much of a sent run has arrived, the frames taken out so far are the first ones sent, and each decodes to its message as stamped. |
| VirtualBroker.FeesAreProportional | god/execution/virtual.py:194-305 | The opening fees of all positions sum to the fee per lot times their total volume. |
| VirtualBroker.VirtualExecutionProvider.constructor | god/execution/virtual.py:34-53 | A new account has equity and balance equal to the initial balance and no positions. |
| VirtualBroker.VirtualExecutionProvider.RecalcEquity | god/execution/virtual.py:177-192 | The loop re-marks every open position at the quotes and sets equity to the balance plus the sum of their profits. |
| VirtualBroker.VirtualExecutionProvider.SetQuotes | god/execution/virtual.py:88-93 | New quotes re-mark the book. |
| VirtualBroker.VirtualExecutionProvider.Open | god/execution/virtual.py:194-254 | An opening is charged its fee and logs itself; a bad side or volume changes nothing. Which side, price and volume: `VirtualBrokerConduct.OpenedPosition`. |
| VirtualBroker.VirtualExecutionProvider.Place | god/execution/virtual.py:217-240 | A position enters the book under a new id, is charged its fee, and the book is recalculated before the trade is logged. |
| VirtualBroker.VirtualExecutionProvider.Close | god/execution/virtual.py:256-305 | A closing books the profit less the fee and logs itself; an unknown or closed position changes nothing. |
| VirtualBroker.VirtualExecutionProvider.Modify | god/execution/virtual.py:307-336 | Only given stop and target values change, and only on an open position. |
| VirtualBroker.VirtualExecutionProvider.Submit | god/execution/virtual.py:95-140 | A seen request id returns the stored answer marked as duplicate and changes nothing; a new one is executed and stored. What executing means: `VirtualBrokerConduct`. |
| VirtualBrokerLaws.FreshIsValid | god/execution/virtual.py:34-53 | A new account satisfies every law of the book. |
| VirtualBrokerLaws.RecalcRestores | god/execution/virtual.py:177-192 | Recalculation brings marks and equity up to date and disturbs nothing else. |
| VirtualBrokerLaws.RecalcIsIdle | god/execution/virtual.py:177-192 | In a reachable account equity and marks are never out of date. |
| VirtualBrokerLaws.QuotesKeepValid | god/execution/virtual.py:88-93 | A quote change keeps every law. |
| VirtualBrokerLaws.OpenKeepsValid | god/execution/virtual.py:194-254 | An opening succeeds exactly for a known side and positive volume, keeps every law, and lowers equity by exactly fee plus spread times volume times 100000. |
| VirtualBrokerLaws.CloseKeepsValid | god/execution/virtual.py:256-305 | A closing succeeds exactly on an open position, keeps every law, lowers equity by exactly its fee, and books the profit the position already showed. |
| VirtualBrokerLaws.ModifyKeepsValid | god/execution/virtual.py:307-336 | A modification keeps every law and moves no money. |
| VirtualBrokerLaws.StepKeepsValid | god/execution/virtual.py:95-140 | Every submit or quote change keeps every law. |
| VirtualBrokerLaws.RunsConserve | god/execution/virtual.py:88-305 | The laws hold after every run from any account that satisfies them. |
| VirtualBrokerLaws.AccountsConserve | god/execution/virtual.py:88-305 | In every reachable state balance = initial − fee × total volume + Σ closed (pnl − fee × volume), equity = balance + Σ open profit at the quotes, and every position has one OPEN log entry and at most one CLOSE, later. |
| VirtualBrokerLaws.ReplaysAreInvisible | god/execution/virtual.py:95-140 | Deleting every submit whose request id occurred before, whatever its payload, gives the same account in every field. |
| VirtualBrokerLaws.RepeatGetsFirstAnswer | god/execution/virtual.py:95-115 | However much happens in between, a repeated request id gets the first answer's fields, marked duplicate, and changes nothing. |
| VirtualBrokerConduct.SideIsAsked | god/execution/virtual.py:197-198 | An absent, empty or BUY side, in any mixture of cases, asks to buy; SELL, likewise, asks to sell; nothing else is read. |
| VirtualBrokerConduct.OpensExactly | god/execution/virtual.py:194-213 | An opening succeeds exactly for a side that can be read and a positive volume, none or 0 counting as 0.01; a refused one changes nothing and says why. |
| VirtualBrokerConduct.RecalcKeepsTerms | god/execution/virtual.py:177-192 | A recalculation touches only marks and equity: a BUY is marked at the bid, a SELL at the ask. |
| VirtualBrokerConduct.OpenedPosition | god/execution/virtual.py:194-240 | A BUY is filled at the ask, a SELL at the bid, in the symbol and volume asked for, under a new id, for the fee of its volume; every other position keeps its terms. |
| VirtualBrokerConduct.OpeningIsReported | god/execution/virtual.py:242-254 | The answer tells the fill, the volume and the fee. |
| VirtualBrokerConduct.ClosesExactly | god/execution/virtual.py:256-305 | A closing succeeds exactly on an open position, at the bid for a BUY and the ask for a SELL, and pays price move times volume times 100000 less the fee. |
| VirtualBrokerConduct.ClosedPosition | god/execution/virtual.py:276-290 | The position is closed with its price and its profit; every other keeps its terms. |
| VirtualBrokerConduct.ModifiesExactly | god/execution/virtual.py:307-336 | A modification succeeds exactly on an open position and moves the given stop and target, and nothing else. |
| VirtualBrokerConduct.OtherActionsDoNothing | god/execution/virtual.py:95-140 | An action that is no order succeeds, is remembered and changes nothing. |
| VirtualBrokerConduct.EquityFollowsMarket | god/execution/virtual.py:88-192 | From every reachable account new quotes move equity by the change of the bid times the volume held long, less the change of the ask times the volume held short, times 100000, and leave the balance. |
| VirtualBrokerConduct.OpeningFollowsMarket | god/execution/virtual.py:88-254 | After any later quotes an opening is worth, against not opening, its fee and the way from its fill to the new bid (BUY) or from the new ask to its fill (SELL), times volume times 100000. |
| LivePreflight.PassExactly | god/live/preflight.py:10-42 | The preflight passes exactly when the caller vouched for every mandatory check; anything else is FAIL, never UNKNOWN. |
| LivePreflight.MandatoryAreDistinct | god/live/models.py:127-150 | The mandatory checks are twenty-two, each named once. |
| LivePreflight.ComplainsExactly | god/live/preflight.py:24-42 | There is no complaint exactly if the report passes; each check that failed or is unknown is complained of by name. |
| LivePreflight.RunPreflight | god/live/preflight.py:10-42 | Report of the mandatory checks: statuses, reasons in order and overall verdict. |
| LivePreflight.RunChecks | god/live/preflight.py:24-42 | The report over any list of check names: statuses, complaints, overall verdict. |
| LivePreflight.CollectChecks | god/live/preflight.py:24-31 | The loop records each check's effective status, and a complaint, in order, for each that is not a pass. |
| LiveAuthorization.AllSatisfiedMeansAll | god/live/models.py:107-111 | No prerequisite is missing exactly when all nine are true. |
| LiveAuthorization.GateStepKeepsInvariant | god/live/authorization.py:75-214 | Every gate operation keeps: armed exactly while explicitly armed, armed only with all prerequisites, SAFE_MODE shown exactly in safe mode. |
| LiveAuthorization.GateRunsAreSafe | god/live/authorization.py:75-214 | That holds after every run, and live submission is then allowed exactly in state LIVE_ARMED. |
| LiveAuthorization.ArmedExactlyBy | god/live/authorization.py:117-150 | The gate becomes armed exactly by an arm with a non-blank authorization, or a policy resume, with all prerequisites and no safe mode. |
| LiveAuthorization.DemoIsLeftExactlyBy | god/live/authorization.py:102-115 | DEMO is left exactly by entering safe mode or by a policy resume with all prerequisites. |
| LiveAuthorization.DemoGateCanBeArmed | god/live/authorization.py:102-150 | A gate built for demo can submit live after safe mode, its exit and an arm. |
| LiveAuthorization.LiveAuthorizationGate.constructor | god/live/authorization.py:44-55 | A new gate is DEMO or LIVE_DISABLED and not armed. |
| LiveAuthorization.LiveAuthorizationGate.RecomputeState | god/live/authorization.py:85-100 | The state follows safe mode, demo, explicit arming and prerequisites, in this order. |
| LiveAuthorization.LiveAuthorizationGate.Update | god/live/authorization.py:75-79 | Setting flags changes those prerequisites and recomputes. |
| LiveAuthorization.LiveAuthorizationGate.Set | god/live/authorization.py:81-83 | Replacing the prerequisites recomputes. |
| LiveAuthorization.LiveAuthorizationGate.EnterSafe | god/live/authorization.py:102-107 | Safe mode clears the arming, whatever the state. |
| LiveAuthorization.LiveAuthorizationGate.ExitSafe | god/live/authorization.py:109-115 | Leaving safe mode never restores the arming. |
| LiveAuthorization.LiveAuthorizationGate.Arm | god/live/authorization.py:117-150 | Arming, with each refusal, its reason and the missing prerequisites. |
| LiveAuthorization.LiveAuthorizationGate.Disarm | god/live/authorization.py:152-160 | Disarming clears the arming and reports the state. |
| LiveAuthorization.LiveAuthorizationGate.ResumeFromAdminPolicy | god/live/authorization.py:174-214 | A policy resume arms without operator text, only under an autonomous policy with all prerequisites. |
| LiveController.LiveExecutionController.constructor | god/live/controller.py:59-79 | A new controller is DISABLED with a failed preflight and its own gate, demo unless in live mode. |
| LiveController.LiveExecutionController.EvaluatePreflight | god/live/controller.py:97-103 | A failing preflight blocks the controller unless it is halted. |
| LiveController.LiveExecutionController.Arm | god/live/controller.py:105-154 | Arming and its refusals, with the gate's own arm in live mode. |
| LiveController.LiveExecutionController.ArmFromAdminPolicy | god/live/controller.py:156-195 | Arming by policy: live mode only, through the gate's resume. |
| LiveController.LiveExecutionController.Disarm | god/live/controller.py:197-207 | Disarms controller and gate, except when halted. |
| LiveController.LiveExecutionController.KillSwitch | god/live/controller.py:209-213 | Halts from every state. |
| LiveController.LiveExecutionController.ResetAfterHalt | god/live/controller.py:215-224 | An acknowledged reset disables the controller and voids the preflight. |
| LiveController.LiveExecutionController.SubmitLiveOrder | god/live/controller.py:243-333 | The order path: each refusal in order, and the broker called exactly when none applies (`LiveConduct.CallsBrokerExactly`, `LiveConduct.RefusalStatusExactly`). |
| LiveController.LiveExecutionController.CallBroker | god/live/controller.py:291-333 | An exception degrades and leaves the order id free; an answer uses it up; only an accepted one counts, as submitted and as open (`LiveSafety.StepCounters`, `LiveConduct.AfterSubmit`). |
| LiveController.LiveExecutionController.CheckRisk | god/live/controller.py:226-241 | Passes exactly when every limit holds: size in range, room for a position, daily loss and losing streak below their limits, a symbol and a known side; a reason names a violated limit, the first in order. |
| LiveController.LiveExecutionController.RecordFillOutcome | god/live/controller.py:335-342 | A loss extends the streak and the daily loss; any fill frees a position. |
| LiveSafety.StepKeepsInvariant | god/live/controller.py:97-342 | Every operation keeps: active only after a passed preflight, never left in EXECUTING, gate invariant, open positions within the limit. |
| LiveSafety.RunsKeepInvariant | god/live/controller.py:97-342 | That holds after every run of a new controller. |
| LiveSafety.BrokerCallsAreAuthorised | god/live/controller.py:243-300 | Whenever the broker is called the controller is armed or monitoring, the last preflight passed every mandatory check, the id is new, every risk limit holds, and in live mode the gate is armed with all nine prerequisites, no safe mode, and capital allowed. |
| LiveSafety.BrokerIsReachable | god/live/controller.py:97-333 | Not vacuously: in live mode, with all prerequisites, every mandatory check vouched for and an acknowledged arm, every intent within the limits reaches the broker. |
| LiveSafety.NoShortcuts | god/live/controller.py:97-333 | One step becomes active only by arming, arms only after a passed preflight, passes only by evaluating, and leaves a halt only by a reset. |
| LiveSafety.ArmedBetween | god/live/controller.py:105-195 | Between an inactive and an active state lies a successful arm. |
| LiveSafety.PassedBetween | god/live/controller.py:97-103 | Between a failed and a passed preflight lies a passing evaluation. |
| LiveSafety.ResetBetween | god/live/controller.py:215-224 | Between a halted state and one that is not lies an acknowledged reset. |
| LiveSafety.KillNeedsResetPreflightArm | god/live/controller.py:209-224 | After a kill switch, from any state, the broker is called again only after a reset, then a passing preflight, then a successful arm, in this order. |
| LiveSafety.StepCounters | god/live/controller.py:226-342 | What one operation adds to each counter, open positions included: one for an accepted order, one less for a fill, not below 0; a broker call needs a new id, a daily loss and a losing streak below their limits. |
| LiveSafety.LossCountersTellHistory | god/live/controller.py:335-342 | Consecutive losses are the longest losing suffix of the recorded outcomes, daily loss is the sum of the recorded losses. |
| LiveSafety.OrderCountersTellHistory | god/live/controller.py:243-333 | The submitted count equals the accepted answers, and no client order id gets two broker answers. |
| LiveSafety.LossesOnlyGrow | god/live/controller.py:335-342 | No operation lowers the daily loss. |
| LiveSafety.LossLimitIsFinal | god/live/controller.py:226-241 | Once the recorded losses reach the limit no continuation, with resets and re-arms, reaches the broker again. |
| LiveSafety.LossStreakBlocks | god/live/controller.py:226-241 | While the last recorded outcomes are losses, as many as the streak limit, no operation reaches the broker. |
| LiveSafety.OpenPositionsAreBounded | god/live/controller.py:226-241 | The open count never exceeds the limit (0 when the limit is not positive); that it counts every accepted order is `LiveSafety.OpenPositionsTellHistory`. |
| LiveSafety.OpenPositionsTellHistory | god/live/controller.py:243-342 | After every run the open count is that of the history: one more for every accepted answer, one less for every recorded fill, not below 0. |
| LiveSafety.OpensPileUp | god/live/controller.py:309-342 | Over a stretch without a fill the open count grows by exactly its accepted answers. |
| LiveSafety.AcceptedWithoutFillIsBounded | god/live/controller.py:226-342 | Any stretch of any run without a fill holds at most max(max_open_positions, 0) accepted answers. |
| LiveConduct.MissingExactly | god/live/models.py:107-111 | The missing prerequisites are exactly those that are not true. |
| LiveConduct.UpdatedExactly | god/live/authorization.py:75-79 | A given flag decides its prerequisite; every other stays. |
| LiveConduct.SafeModeExactly | god/live/authorization.py:102-115 | Safe mode begins and ends with its own operations only, and is never armed. |
| LiveConduct.ArmedIsLeftExactlyBy | god/live/authorization.py:75-214 | An armed gate is left exactly by safe mode in or out, a disarm, a lost prerequisite, an arm without authorization, or a resume that policy or prerequisites do not back. |
| LiveConduct.ReadyExactly | god/live/authorization.py:85-100 | An unarmed live gate shows LIVE_READY exactly if all prerequisites are true, else LIVE_DISABLED. |
| LiveConduct.ArmReportsExactly | god/live/authorization.py:117-150 | An arm reports success exactly if the gate is armed after it: not in demo or safe mode, with an authorization and all prerequisites; otherwise it names what is missing. |
| LiveConduct.ResumeReportsExactly | god/live/authorization.py:174-214 | A policy resume succeeds exactly outside safe mode with its prerequisites and all of the gate's but the operator's, which it sets. |
| LiveConduct.NothingElseArms | god/live/authorization.py:152-195 | A resume the policy does not ask for never arms; a disarm never fails and leaves nothing armed. |
| LiveConduct.CallsBrokerExactly | god/live/controller.py:243-296 | The broker is called exactly by an active controller, with a new id, size, positions, losses and streak within their limits, a symbol and a known side, a callable and, in live mode, the gate and capital. |
| LiveConduct.AfterSubmit | god/live/controller.py:243-333 | What a submission leaves and reports: nothing changes without a call; monitoring after an accepted order, armed after a refused one, degraded with the id free after an exception. |
| LiveConduct.RefusalStatusExactly | god/live/controller.py:249-296 | Which kind of refusal an order meets: halt first, then state and gate, then id and limits, then capital, a missing callable last. |
| LiveConduct.EvaluatesExactly | god/live/controller.py:97-103 | An evaluation passes exactly with every mandatory check vouched for, and otherwise blocks unless halted. |
| LiveConduct.RiskBlamesExactly | god/live/controller.py:226-241 | The risk check blames the first limit that is not kept, in the order of the code. |
| LiveConduct.ControllerArmsExactly | god/live/controller.py:105-154 | Arming succeeds exactly after a passed preflight, not halted, with an acknowledgement and, in live mode, capital and a gate that can be armed. |
| LiveConduct.PolicyArmsExactly | god/live/controller.py:156-195 | Arming by policy succeeds exactly in live mode, not halted, after a passed preflight, with capital and a gate that can be resumed. |
| LiveConduct.DisarmDisarms | god/live/controller.py:197-207 | A disarm takes controller and gate out of the armed state unless halted. |
| LiveConduct.HaltAndReset | god/live/controller.py:209-224 | A kill halts from every state; an acknowledged reset disables and voids the preflight, and nothing else resets. |
| LiveConduct.ActiveIsLeftExactlyBy | god/live/controller.py:97-333 | An active controller is left exactly by a disarm, a kill, a failing preflight, a refused arm in live mode, or an exception of the broker. |
| CircuitBreaker.CircuitBreaker.constructor | god/data/circuit.py:24-36 | A new breaker is closed. |
| CircuitBreaker.CircuitBreaker.CurrentState | god/data/circuit.py:38-40 | Reading the state may turn OPEN into HALF_OPEN. |
| CircuitBreaker.CircuitBreaker.AllowRequest | god/data/circuit.py:42-52 | Closed allows, open refuses, half open allows up to its probes; over all runs: `CircuitHistory.AnswerTellsHistory`. |
| CircuitBreaker.CircuitBreaker.RecordSuccess | god/data/circuit.py:54-58 | A success resets everything. |
| CircuitBreaker.CircuitBreaker.RecordFailure | god/data/circuit.py:60-66 | A failure trips when half open or at the threshold. |
| CircuitBreaker.CircuitBreaker.TripNow | god/data/circuit.py:68-71 | A trip opens at the given time and clears the probes. |
| CircuitBreaker.ClosedExactlyBelowThreshold | god/data/circuit.py:54-71 | After every run the breaker is closed exactly while fewer failures than the threshold were recorded since the last success. |
| CircuitBreaker.NonPositiveThreshold | god/data/circuit.py:17-36 | That holds of a new breaker exactly if the threshold is at least 1. |
| CircuitBreaker.OpeningTime | god/data/circuit.py:60-71 | A trip sets the opening time, and only a success clears it. |
| CircuitBreaker.OpenedAtIsLastTrip | god/data/circuit.py:60-71 | The opening time is the time of the last trip since a success. |
| CircuitBreaker.HalfOpenHasWaited | god/data/circuit.py:73-79 | A half-open breaker has waited out its cooldown. |
| CircuitBreaker.CooldownIsRespected | god/data/circuit.py:42-79 | No request is allowed within the cooldown of the last trip. |
| CircuitBreaker.HammeringInvariant | god/data/circuit.py:37-79 | Against a dead service each request beyond the threshold has waited out a cooldown of its own. |
| CircuitBreaker.HammeringIsBounded | god/data/circuit.py:37-79 | A fresh breaker lets through at most threshold + ⌊(T − t0) / cooldown⌋ requests by time T. |
| CircuitBreaker.BoundIsAttained | god/data/circuit.py:37-79 | For every n there are attempts that reach the bound, so no smaller one holds. |
| CircuitHistory.StateTellsHistory | god/data/circuit.py:38-79 | Every field of the breaker after every run, for any limits, told by the failures since a success, the time of the last one and the asks since then. |
| CircuitHistory.AnswerTellsHistory | god/data/circuit.py:42-79 | Every ask in every run is allowed exactly if too few failures were recorded since a success, or the cooldown has passed since the last failure and fewer asks than probes came after it. |
| CircuitHistory.ProbesExactly | god/data/circuit.py:42-52 | From a failure that trips the breaker on, while no outcome is recorded, exactly min(asks after the cooldown, max(probes, 0)) asks are allowed. |
| CircuitHistory.ProbesAreBounded | god/data/circuit.py:42-52 | Never more than max(probes, 0), even if the clock is turned back. |
| CircuitHistory.RefusesUntilTold | god/data/circuit.py:42-66 | A breaker that has used up its probes refuses for ever until an outcome is recorded. |
| ShadowStore.ShadowDecisionStore.constructor | god/decision/shadow.py:11-15 | A new store is empty. |
| ShadowStore.ShadowDecisionStore.Put | god/decision/shadow.py:17-34 | `put` with both evictions and the error of popping from an empty list. |
| ShadowStore.ShadowDecisionStore.Trim | god/decision/shadow.py:62-65 | The trim loop drops oldest ids until the order fits. |
| ShadowStore.ShadowDecisionStore.Lookup | god/decision/shadow.py:36-37 | `get` by id. |
| ShadowStore.MakeRoomKeeps | god/decision/shadow.py:22-27 | Making room in a revision list keeps the store consistent. |
| ShadowStore.EnterKeeps | god/decision/shadow.py:28-32 | Entering a decision leaves at most one id too many, itself last. |
| ShadowStore.TrimRestores | god/decision/shadow.py:62-65 | Trimming then restores consistency and keeps the newest decision. |
| ShadowStore.PutEvictsExactly | god/decision/shadow.py:17-34 | What `put` evicts: the oldest of a full revision list and the oldest of a full order, nothing else. |
| ShadowStore.PutFilesExactly | god/decision/shadow.py:18-29 | A decision is filed last in its parent's list, or in its own where it names no parent; a full list loses its oldest, and no other list changes. |
| ShadowStore.PutKeepsConsistent | god/decision/shadow.py:17-34 | With both limits at least 1, `put` never raises, keeps the three structures in step, and the decision can be fetched right after. |
| ShadowStore.RunsAreConsistent | god/decision/shadow.py:17-65 | In every reachable store the order has no duplicates and fits, every indexed id is in it, every indexed decision is in its root's list, every list fits. |
| ShadowStore.BadLimitsIndexNothing | god/decision/shadow.py:17-65 | Without two positive limits nothing stays indexed. |
| ShadowStore.PutThenGetExactly | god/decision/shadow.py:17-37 | In every reachable store and for every decision, put-then-get works if and only if both limits are positive. |
| ShadowStore.TableHoldsEveryRoot | god/decision/shadow.py:17-34 | For any decisions, the keys of the revision table after a run are exactly the roots of those not indexed when they were put. |
| ShadowStore.RevisionTableNeverShrinks | god/decision/shadow.py:17-34 | With parentless decisions the revision table keeps one list for every id ever put. |
| MessageBus.MessageBus.constructor | god/institutional/message_bus.py:11-14 | A new bus is empty. |
| MessageBus.MessageBus.Subscribe | god/institutional/message_bus.py:15-17 | A handler is listed once per topic. |
| MessageBus.MessageBus.Publish | god/institutional/message_bus.py:18-22 | False exactly when a new message meets a full queue; a seen id is true and does nothing; (taken) ++ (queue) stays the sequence of accepted messages, with distinct ids as many as seen. |
| MessageBus.MessageBus.TakeNext | god/institutional/message_bus.py:26-28 | Takes the oldest message and its handlers, `*` subscribers last. |
| MessageBus.MessageBus.Invoke | god/institutional/message_bus.py:29-31 | A handler's publications are offered in order; its exception is only counted. |
| MessageBus.MessageBus.PublishAll | god/institutional/message_bus.py:18-22 | Publications of a handler, each accepted or dropped in order. |
| MessageBus.MessageBus.Dispatch | god/institutional/message_bus.py:29-31 | One message goes to each of its handlers, in order, exactly once per subscription. |
| MessageBus.MessageBus.Drain | god/institutional/message_bus.py:23-33 | With handlers that publish during the drain: (drained so far) ++ (queue) is always the accepted sequence, every message taken is delivered once per subscription, oldest first, and without a limit the queue ends empty. |
| MessageBus.LedgerGrows | god/institutional/message_bus.py:18-22 | The seen set stays exactly the ids of the accepted messages. |
| MessageBus.DeliveredExactly | god/institutional/message_bus.py:23-33 | A drained message reaches a handler exactly once for its topic and once more for `*`, and no other handler. |
| InstitutionalKernel.InstitutionalKernel.constructor | god/institutional/kernel.py:22-34 | A new kernel has its decision handler as the only subscription. |
| InstitutionalKernel.InstitutionalKernel.SubmitDecision | god/institutional/kernel.py:39-43 | Raises exactly on backpressure or a failing save; in the latter case the decision is already on the bus. |
| InstitutionalKernel.InstitutionalKernel.PublishObservation | god/institutional/kernel.py:35-38 | The same for observations, which no handler of the kernel receives. |
| InstitutionalKernel.InstitutionalKernel.OnDecision | god/institutional/kernel.py:44-49 | The executor sees only what the gate returned, and nothing if the message carries no decision, or the gate or the save after it raised; what gate and executor publish goes to the bus. |
| InstitutionalKernel.InstitutionalKernel.Turn | god/institutional/kernel.py:50 | One message of the drain: only the decision topic reaches the handler, whose exception is counted. |
| InstitutionalKernel.InstitutionalKernel.Drain | god/institutional/kernel.py:50 | The executor gets exactly the gate outputs of the decisions taken, in order, whatever is published on the decision topic, and the bus ends as its own drain leaves it. |
| InstitutionalKernel.TurnUnfolds | god/institutional/kernel.py:44-50 | One turn of the kernel is one turn of the bus's drain, for messages with and without a decision. |
| InstitutionalKernel.InstitutionalKernel.ExecutedOnceInOrder | god/institutional/kernel.py:39-50 | Over a kernel's whole life, with any submits, publications and drains: the executions belong to accepted decisions, in order of acceptance, each at most once, and no id is executed twice. |
| InstitutionalKernel.OriginsAreExact | god/institutional/kernel.py:39-50 | Each execution comes from its own decision among the messages taken, at increasing positions. |
| InstitutionalKernel.ExecutedInOrder | god/institutional/kernel.py:44-49 | Of the decisions taken, exactly those whose gate and following save returned are executed, at increasing positions. |
| InstitutionalKernel.ExecutorObeysGate | god/institutional/kernel.py:44-49 | Each execution carries the gate's output for its own decision. |
| ControlCycle.PaperFollowsRiskAndIntent | god/loop/control_states.py:27-44 | On every walk of the allowed graph PAPER_EXECUTION comes directly after EXECUTION_INTENT, and that directly after RISK_CHECK. |
| ControlCycle.EnteredExactlyFrom | god/loop/control_states.py:27-51 | The graph read the other way: the states each state can be entered from. |
| ControlCycle.ControlCycle.constructor | god/loop/control_cycle.py:54-63 | A new cycle is IDLE with an empty log. |
| ControlCycle.ControlCycle.Transition | god/loop/control_cycle.py:69-99 | A legal transition is logged and moves the state; an illegal one raises and changes nothing; the log stays a walk from IDLE to the state. |
| ControlCycle.ControlCycle.RegisterIntent | god/loop/control_cycle.py:101-106 | An intent id is registered once. |
| ControlCycle.WalkGrows | god/loop/control_cycle.py:69-99 | Appending a legal edge at the end of a walk gives a walk. |
| Quotes.ValidateQuote | god/market_decision/quotes.py:39-91 | Raises exactly on a quote without a timestamp; otherwise passes exactly a good one: named, priced both ways and uncrossed, no negative quantity, dated and fresh, spread within its share of the mid price, deep enough, next of its sequence. |
| Quotes.CheckIdentity | god/market_decision/quotes.py:49-63 | No complaint exactly for a name, two uncrossed positive prices and no negative quantity. |
| Quotes.CheckTime | god/market_decision/quotes.py:64-70 | Complains of a missing or non-positive timestamp, raises exactly on a missing one, and of the others calls the old ones stale. |
| Quotes.CheckSpread | god/market_decision/quotes.py:71-78 | Of two uncrossed positive prices, complains exactly if the spread exceeds its share of the mid price. |
| Quotes.CheckDepthAndSequence | god/market_decision/quotes.py:79-90 | No complaint exactly if one side is deep enough and a known sequence goes on by one. |
| Quotes.TermsExactly | god/market_decision/quotes.py:79-90 | What a depth and a known sequence ask of a quote beyond the rest. |
| Quotes.LooserTermsKeepGood | god/market_decision/quotes.py:39-91 | A good quote stays good under looser terms and while it is not too old. |
| StreamHealth.StreamHealthMonitor.constructor | god/market_decision/stream_health.py:44-46 | A new monitor is disconnected and has heard nothing. |
| StreamHealth.StreamHealthMonitor.OnMessage | god/market_decision/stream_health.py:53-70 | A message that repeats or continues the sequence makes the stream healthy, any other needs a resync; both are remembered. |
| StreamHealth.StreamHealthMonitor.Tick | god/market_decision/stream_health.py:83-89 | A connected stream whose last message is too old goes stale. |
| StreamHealth.AllowsExactly | god/market_decision/stream_health.py:53-89 | Just after a message an entry is allowed exactly if the message repeated or continued the sequence and is not too old. |
| StreamHealth.TickTwice | god/market_decision/stream_health.py:83-89 | Ticking twice at one instant is ticking once. |
| StreamHealth.NextMessageHeals | god/market_decision/stream_health.py:53-70 | The monitor follows the sequence wherever it went, so a gap or a step back costs one message. |
| StreamHealth.BlamesExactly | god/market_decision/stream_health.py:53-70 | A gap is blamed exactly if numbers were left out, disorder exactly if the number went back. |
| StreamHealth.StaleUntilHeard | god/market_decision/stream_health.py:83-89 | When a tick finds the stream stale; once stale, it stays so until a message is heard. |
| AutonomousLoop.StopNeverFails | god/loop/autonomous.py:93-105 | A safe stop goes straight to SAFE_STOP from every state but IDLE and the three it leaves alone; the detour over FAILED is dead. |
| AutonomousLoop.ValidationPassesExactly | god/loop/autonomous.py:174-188 | Validation passes exactly on a good quote that repeats or continues the sequence within the monitor's age, with healthy books, no doubt about the position and a time to live that is not negative. |
| AutonomousLoop.RoutesAreStable | god/loop/autonomous.py:118-332 | For all inputs the route of a cycle ends in COMPLETED, SAFE_STOP or RECOVERY_REQUIRED unless it validates a quote without a timestamp, avoids FAILED in any case, and is complete only if validation, prediction and decision were passed; what risk does to it is `LoopConduct.DecisionDecidesRoute`. |
| AutonomousLoop.UntimedQuoteBreaksOff | god/loop/autonomous.py:172-176 | A quote in order but for its timestamp breaks the cycle off in VALIDATING, whatever else the call brings; dated now it would be good. |
| AutonomousLoop.RegistryGrows | god/loop/autonomous.py:291-296 | Adding a cycle with new intents keeps the registry the disjoint union of the cycles' intents. |
| AutonomousLoop.AutonomousControlLoop.constructor | god/loop/autonomous.py:60-86 | A new loop has no cycles and no intents. |
| AutonomousLoop.AutonomousControlLoop.SafeStop | god/loop/autonomous.py:93-116 | A safe stop appends the stop route, records the code, and reports the state reached. |
| AutonomousLoop.AutonomousControlLoop.Advance | god/loop/control_cycle.py:69-99 | Transitions of the driver are never illegal. |
| AutonomousLoop.AutonomousControlLoop.Prepare | god/loop/autonomous.py:151-236 | From IDLE to DECIDING, by the expected early route to a stop, or out by an exception. |
| AutonomousLoop.AutonomousControlLoop.Examine | god/loop/autonomous.py:174-236 | From VALIDATING to DECIDING exactly if validation and prediction pass; a quote without a timestamp leaves VALIDATING with an exception, anything else is a safe stop. |
| AutonomousLoop.AutonomousControlLoop.Validate | god/loop/autonomous.py:174-188 | Feeds the quote to the monitor and tests in order; raises exactly on a quote without a timestamp, and passes exactly if no test fails. |
| AutonomousLoop.AutonomousControlLoop.Conclude | god/loop/autonomous.py:236-332 | From DECIDING to the end, with the failure code of a stop; when an intent is registered and where the cycle stops, in the decision's fields: `LoopConduct.DecisionDecidesRoute`. |
| AutonomousLoop.AutonomousControlLoop.SkipEntry | god/loop/autonomous.py:266-273 | A decision without an entry walks through risk check, intent and paper execution to COMPLETED without registering an intent. |
| AutonomousLoop.AutonomousControlLoop.EnterPosition | god/loop/autonomous.py:286-332 | Intent, duplicate stop, crash or paper execution; the second expiry test cannot fire. |
| AutonomousLoop.AutonomousControlLoop.Complete | god/loop/autonomous.py:312-321 | Paper execution, monitoring, reassessment, completed. |
| AutonomousLoop.AutonomousControlLoop.Walk | god/loop/autonomous.py:151-332 | A fresh cycle's log is the expected route and its intents the expected ones, whether it returns or raises. |
| AutonomousLoop.AutonomousControlLoop.Resume | god/loop/autonomous.py:134-149 | Resuming a stopped or broken-off cycle leads to RECOVERY_REQUIRED legally. |
| AutonomousLoop.AutonomousControlLoop.ResumeKnown | god/loop/autonomous.py:134-149 | Resuming changes that cycle only and no intents. |
| AutonomousLoop.AutonomousControlLoop.Adopt | god/loop/autonomous.py:152 | A cycle is entered under its own id and the others are untouched. |
| AutonomousLoop.AutonomousControlLoop.RunFresh | god/loop/autonomous.py:151-332 | Only the fresh cycle is added; it comes to rest unless it validates a quote without a timestamp. |
| AutonomousLoop.AutonomousControlLoop.RunCycle | god/loop/autonomous.py:118-332 | Every call on every reachable loop: it raises if and only if it starts a cycle, outside safe mode and without the crash after OBSERVING, on a quote without a timestamp; that cycle is left in VALIDATING without an intent, and a later resume takes it to RECOVERY_REQUIRED; every other cycle ends in a stable state, which the outcome reports with its action; no transition is illegal; each log is a walk, each cycle has at most one intent, and the registry is the disjoint union of them. The way of a fresh cycle: `LoopConduct`. |
| LoopConduct.GoodExactly | god/market_decision/quotes.py:39-91 | What a quote must be for the loop: at most 30 seconds old, its spread at most a hundredth of the mid price, and the rest. |
| LoopConduct.DecisionIsReachedExactly | god/loop/autonomous.py:151-236 | When a fresh cycle gets as far as the decision, in the fields of the call and the monitor. |
| LoopConduct.DecisionDecidesRoute | god/loop/autonomous.py:236-332 | Once the decision is reached: an intent is asked for exactly if the action is neither NO_TRADE nor HOLD, an entry is allowed and risk allows it; the cycle stops right after RISK_CHECK exactly if an entry is allowed and risk refuses; it is COMPLETED without an intent exactly if no entry is allowed; and likewise a raising decision, a taken intent and the crash. |
| LoopConduct.EarlyEndsExactly | god/loop/autonomous.py:154-236 | Which way a cycle ends that does not reach its decision, and why. |
| LoopConduct.FailureTellsCause | god/loop/autonomous.py:93-290 | A cycle has a failure code exactly if it was stopped, and every code has one cause. |
| LoopConduct.ValidationFailureTellsCause | god/loop/autonomous.py:174-190 | The codes of a failed validation, each with its cause, in the order of the tests. |
| LoopConduct.MonitorHearsExactly | god/loop/autonomous.py:173-178 | The monitor hears the quote of every cycle that gets to its validation, and no other. |
| LoopConduct.IntentKeysDiffer | god/loop/control_cycle.py:108-110 | With a hash that tells strings apart, cycles with different ids of one length never ask for one intent. |
| LoopConduct.IntentKeyTells | god/loop/control_cycle.py:108-110 | A key tells cycle, action and symbol where id and action hold no colon. |
| LoopConduct.FreshIntentIsNew | god/loop/autonomous.py:286-292 | So in every reachable loop the stop for a duplicate intent is never taken with such a hash: it guards against hash collisions only. |
| ImportGraph.EntryIsReachable | tools/deep_audit.py:99-100 | Every entry module is reachable. |
| ImportGraph.ImportIsReachable | tools/deep_audit.py:103-104 | An import of a reachable module is reachable. |
| ImportGraph.ClosedSetHoldsPath | tools/deep_audit.py:100-104 | A set that holds the entries and is closed under imports holds every path's end. |
| ImportGraph.Follow | tools/deep_audit.py:103-104 | Following one module marks its imports and queues exactly the new ones. |
| ImportGraph.Reach | tools/deep_audit.py:100-104 | The worklist terminates and returns exactly the modules with a path of imports from an entry module. |
| ImportGraph.CountedExactly | tools/deep_audit.py:105 | The modules the report counts: those in one of the three packages, but for package initialisers. |
| ImportGraph.Orphans | tools/deep_audit.py:105 | The orphan list is ascending and holds exactly the counted internal modules with no such path. |
| MarketData.KeptGrows | god/data/validation.py:35-71 | One more bar: kept if admissible, on time and usable; it moves the clock if admissible and on time, kept or not. |
| MarketData.OhlcExactly | god/data/integrity.py:21-48 | Of a full bar, the high is the highest and the low the lowest price and the volume is not negative; a missing field is not compared, but one price there must be. |
| MarketData.ZonedExactly | god/data/integrity.py:51-63 | A trailing Z, or a signed offset with or without a colon, makes a text zoned; a clock time alone does not. |
| MarketData.ClockIsGreatest | god/data/validation.py:55-66 | A bar is on time exactly if its timestamp is later than that of every admissible bar before it. |
| MarketData.KeptExactly | god/data/validation.py:35-71 | The kept bars without reference to the loop: those that pass their own checks and are later than every admissible bar before them. |
| MarketData.KeptIsClean | god/data/integrity.py:90-116 | Both filters return a subsequence of the input that passes every check, with strictly increasing present timestamps, none after now. |
| MarketData.KeepsAllExactlyIfClean | god/data/validation.py:35-71 | A filter changes nothing exactly when there was nothing to clean. |
| MarketData.FilteringIsIdempotent | god/data/validation.py:35-71 | Filtering again with the same settings keeps every bar, for both filters. |
| MarketData.PricelessBarsShadow | god/data/validation.py:56-70 | A priceless bar is dropped, and the good bar after it is dropped too unless it is later. |
| MarketData.FutureLastBarIsDead | god/data/validation.py:98-103 | No series takes the future-last-bar branch. |
| MarketData.QualityExactly | god/data/validation.py:73-119 | The verdict of either filter, by the bars given, the bars kept and the settings. |
| MarketData.ValidateSeries | god/data/validation.py:11-119 | The loop keeps exactly the bars of the specification and sets the quality. |
| MarketData.IntegrityCheckSeries | god/data/integrity.py:66-143 | The stricter loop, likewise. |
| Observations.Values | god/data/models.py:68-76 | The close, else the open, of each bar that has one; raises exactly if one of them is not a number. |
| Observations.Timestamps | god/data/models.py:78-79 | The non-empty timestamps in order. |
| Observations.ToObservationDict | god/data/models.py:81-86 | Timestamps are attached exactly if there are some and as many as values. |
| Observations.Chronological | god/discovery/data_quality.py:47-51 | Comparing neighbours decides whether all pairs of timestamps increase. |
| Observations.Past | god/discovery/data_quality.py:52-55 | Whether no timestamp is after now. |
| Observations.Assess | god/discovery/data_quality.py:11-57 | VALID exactly for enough values, all present and finite, and timestamps (if any) as many, strictly increasing over all pairs, none after now; too few is INSUFFICIENT_DATA, all else INVALID. |
| Observations.JudgesExactly | god/discovery/data_quality.py:11-57 | The three verdicts, with timestamps compared as neighbours. |
| Observations.StampsComeInOrder | god/data/models.py:78-79 | The timestamps of a cleaned series increase strictly, and each is that of one of its bars. |
| Observations.OwnTimestampsExactly | god/data/models.py:68-86 | Every value stands beside its own bar's timestamp exactly if every bar with a price or a timestamp has both. |
| Observations.EqualCountsSuffice | god/data/models.py:81-86 | The equal counts the code checks are enough where no bar lacks a price, or no bar lacks a timestamp. |
| Observations.AttachedAreOwn | god/data/integrity.py:90-116 | Timestamps attached after `validate_series`, or after the integrity filter requiring zoned timestamps, belong to their own values. |
| Observations.CleanIsNeverRejected | god/discovery/data_quality.py:22-57 | Discovery never rejects a series either filter cleaned for the same now: it accepts exactly if enough bars have a price. |
| Observations.ValuesAlign | god/data/models.py:68-86 | Where every bar has a price, values match bars one to one, and timestamps are attached exactly if every bar has one, each to its own bar. |
| Observations.AcceptedByDiscovery | god/data/validation.py:35-119 | What `validate_series` marks VALID with enough bars is accepted by discovery, with the close, else the open, of each bar as its value, and timestamps attached exactly if each bar has one. |
| Observations.IntegrityCanMisalign | god/data/integrity.py:46-47 | A series the integrity filter passes without requiring timestamps, whose observation pairs a timestamp with another bar's price. |
| Ranking.KeyLeqIsOrder | god/discovery/ranking.py:41-48 | Rank keys are totally and antisymmetrically ordered. |
| Ranking.OrdersAreListed | god/discovery/ranking.py:16-30 | Which eligibility and which data quality come first. |
| Ranking.SurerWords | god/discovery/ranking.py:31-34 | Which words are surer; any other, and none, come last. |
| Ranking.BetterComesFirst | god/discovery/ranking.py:8-48 | Better eligibility first, then better data, then surer, then the higher score, a missing one counting as 0; then instrument and id. |
| Ranking.RankIsStableSortedPermutation | god/discovery/ranking.py:51-53 | The ranking is a key-sorted permutation of its input that keeps candidates with one key in input order. |
| Ranking.RankingIsCanonical | god/discovery/ranking.py:51-53 | Any two input orders of the same candidates give the same sequence of candidate ids. |
| Ranking.RankingIsBlocks | god/discovery/engine.py:183-191 | The ranking is the eligible, then the restricted, then the undecided, then the blocked candidates: the lists cut from it are disjoint consecutive blocks of it. |
| Discovery.DiscoveryEngine.constructor | god/discovery/engine.py:33-53 | A new engine has an empty result cache. |
| Discovery.DiscoveryEngine.Discover | god/discovery/engine.py:55-153 | The nested loops build exactly the candidates and the short instruments, and finalize them; what the policy's words make of them: `DiscoveryLaws.PairedIsAnswer`. |
| Discovery.DiscoveryEngine.Enrich | god/discovery/engine.py:91-145 | One instrument's candidates: itself if its data is bad, a placeholder without strategies, else one per live strategy. |
| Discovery.DiscoveryEngine.Finalize | god/discovery/engine.py:174-254 | The result is cut from the ranking, or taken from the cache where status, ids and eligibilities were seen before. |
| Discovery.DiscoveryEngine.Decide | god/discovery/engine.py:193-212 | The chain of branches: ELIGIBLE iff some candidate is, else RESTRICTED iff some is, else INSUFFICIENT_DATA iff something is short and nothing blocked, never BLOCKED; an empty universe has no valid candidate. |
| Discovery.KeptFromRanking | god/discovery/engine.py:184-191 | A list cut from the ranking is empty exactly if no candidate qualifies. |
| DiscoveryLaws.AnswersAsIfFresh | god/discovery/engine.py:214-254 | A cached answer has the status, universe size, ranking and id lists that computing it now would give. |
| DiscoveryLaws.UsableExactly | god/discovery/engine.py:82-86 | The live strategies are those neither retired nor rejected. |
| DiscoveryLaws.PairedIsAnswer | god/discovery/engine.py:115-172 | The candidate of an instrument and a live strategy names both; ALLOW makes it eligible, RESTRICT restricted, BLOCK or PAUSE blocked, any other word unknown. |
| DiscoveryLaws.ShortExactly | god/discovery/engine.py:91-113 | An instrument is short exactly if its scan did not accept it or every strategy is retired or rejected. |
| DiscoveryLaws.OneResultPerOutcome | god/discovery/engine.py:214-254 | Finalizing permuted candidates is answered from the cache with the first result. |
| DiscoveryLaws.OffersForAReason | god/discovery/engine.py:91-172 | An instrument has a candidate of an eligibility exactly for the reason the scan or the policy's word gives. |
| DiscoveryLaws.InsufficientListsShortOnce | god/discovery/engine.py:91-113 | The insufficient list of a run holds each instrument with bad data or without a strategy, once, and no other. |
| DiscoveryLaws.StatusExactly | god/discovery/engine.py:55-212 | Over the policy's words for pairs of an accepted instrument and a live strategy: ELIGIBLE iff some word is ALLOW; RESTRICTED iff some is RESTRICT and none ALLOW; INSUFFICIENT_DATA iff something was short, no word is ALLOW, RESTRICT, BLOCK or PAUSE, and no scan was refused or unreadable; never BLOCKED. |
| DiscoveryLaws.IngestedAndAllowedIsFound | god/discovery/scanner.py:34-114 | A series ingestion marked VALID with enough samples, and one allowed live strategy on it, make the run ELIGIBLE. |
| Capital.CapitalRegistry.constructor | god/capital/registry.py:14-17 | A new registry has no record and no transitions. |
| Capital.CapitalRegistry.SetRecord | god/capital/registry.py:19-21 | Replaces the record only. |
| Capital.CapitalRegistry.AddTransition | god/capital/registry.py:26-31 | A known id keeps its first transition. |
| Capital.CapitalSafetyEngine.constructor | god/capital/engine.py:22-25 | A registry without a record starts at INITIALIZING. |
| Capital.CapitalSafetyEngine.Transition | god/capital/engine.py:50-113 | A blank reason or an illegal edge raises, a used id returns the record unchanged, otherwise the step is applied and recorded. |
| Capital.CapitalSafetyEngine.ApplyPermissionHint | god/capital/engine.py:115-158 | A hint is a transition to its target, or to UNKNOWN where the graph does not allow it. |
| Capital.UnknownIsAlwaysOpen | god/capital/engine.py:146-151 | Every state can go to UNKNOWN, so the fallback of a hint is dead. |
| CapitalLaws.DoKeepsWalk | god/capital/engine.py:50-158 | Every request keeps the applied ids a path of distinct ids to the current state that fills the table. |
| CapitalLaws.RunsWalk | god/capital/engine.py:50-158 | From a fresh registry, after every run, the applied transitions form a path in the graph from INITIALIZING to the current state with no id used twice. |
| CapitalLaws.EnteredExactlyFrom | god/capital/states.py:9-97 | The graph read the other way: the states each other state can be entered from. |
| CapitalLaws.MoveExactly | god/capital/engine.py:50-113 | A move raises exactly with a blank reason or out of reach, changes something exactly if the state is another and its key unused, and is then recorded with its evidence and actor. |
| CapitalLaws.UsedForever | god/capital/registry.py:26-34 | A recorded transition is never lost or replaced: whatever runs later, looking its id up gives the first record. |
| CapitalLaws.RunsCollectEvidence | god/capital/engine.py:108-111 | After every run the record's evidence lists, each once, exactly what the applied transitions cite. |
| CapitalLaws.FortyFiveEdges | god/capital/states.py:9-91 | The graph has 45 edges. |
| CapitalLaws.ChangesAreBounded | god/capital/engine.py:72-77 | A run with k distinct pairs of reason and evidence key changes state at most 45 · k times. |
| CapitalLaws.HintRaisesExactly | god/capital/engine.py:115-158 | A hint raises exactly with a reason that is white space only; an absent or empty one is replaced. |
| CapitalLaws.HintTargetExactly | god/capital/engine.py:127-151 | Where a hint leads, by the policy's word and the present state: BLOCK always stops; PAUSE, RESTRICT and ALLOW fall back to UNKNOWN out of reach; any other word means UNKNOWN. |
| CapitalLaws.HintExactly | god/capital/engine.py:72-77 | A hint takes effect exactly if its key is unused. |
| CapitalLaws.NoLeapToNormal | god/capital/engine.py:140-144 | No request moves EMERGENCY_STOP or PAUSED straight to NORMAL. |
| CapitalLaws.NormalOnlyThroughRecovery | god/capital/engine.py:115-158 | Driven by hints only, every arrival at NORMAL comes from RECOVERY, and that from EMERGENCY_STOP or PAUSED. |
| CapitalLaws.AllowAloneStaysUnknown | god/capital/engine.py:146-151 | Fed with ALLOW only, a fresh engine never gets past UNKNOWN. |
| CapitalLaws.RepeatedHintIsIgnored | god/capital/engine.py:74-77 | A hint that was applied in some state changes nothing when repeated in that state, however much later. |
| CapitalLaws.BlockCanBeIgnored | god/capital/engine.py:74-77 | A concrete run in which a BLOCK leaves the engine INITIALIZING. |
| CapitalLaws.EvidenceOrderIsIrrelevant | god/capital/engine.py:72 | The order of the evidence does not change the key. |
| CapitalLaws.KeyTellsEvidence | god/capital/engine.py:72 | Evidence without empty references and bars has one key exactly if it is the same up to order. |
| CapitalLaws.KeysCanCollide | god/capital/engine.py:72 | Otherwise it can collide: x and y have the key of x|y. |
| OrderLifecycle.OrderLifecycle.constructor | god/institutional/execution_state.py:19-24 | A new order is INITIALIZED with no history. |
| OrderLifecycle.OrderLifecycle.Apply | god/institutional/execution_state.py:25-31 | A seen event is ignored, a terminal order or an illegal target raises, otherwise the event is recorded. |
| OrderLifecycle.RunsStayConsistent | god/institutional/execution_state.py:25-31 | After every run history is a path from INITIALIZED to the state, as long as the set of seen events. |
| OrderLifecycle.TerminalIsForever | god/institutional/execution_state.py:27-28 | A terminal order never changes again. |
| OrderLifecycle.TerminalHasNoNext | god/institutional/execution_state.py:10-17 | The terminal states are exactly those without successors. |
| OrderLifecycle.EnteredExactlyFrom | god/institutional/execution_state.py:10-17 | The table read the other way: from where an event leads to each state. |
| OrderLifecycle.EventExactly | god/institutional/execution_state.py:25-31 | An event is applied exactly if its id is new and its state can be entered, ignored exactly if its id was seen, and otherwise raises and changes nothing. |
| OrderLifecycle.ReleasedBeforeFilled | god/institutional/execution_state.py:10-17 | PARTIALLY_FILLED, FILLED, EXPIRED or UNKNOWN occur only in histories that begin with ACCEPTED, RELEASED. |
| OrderLifecycle.ReplaysAreInvisible | god/institutional/execution_state.py:26 | Deleting every event whose id was seen, whatever its target, gives the same order. |
| OrderLifecycle.InsertedReplayIsInvisible | god/institutional/execution_state.py:26 | Inserting an event with a seen id anywhere changes nothing. |
| OrderLifecycle.AppliedAtMostOnce | god/institutional/execution_state.py:25-31 | Each event id is applied at most once, and exactly once if a run adds it; a raising event leaves its id free. |

## Left out

- TcpTransport.TcpTransport.Receive: the deadline is a number of checks that still find time left, and the socket is a list of answers; real sockets, locks and clocks are not modelled, nor is the socket's 64 KiB limit on one chunk, since chunks of any size are covered.
- TcpTransport.TcpTransport.Send: changes its argument's number in place in the original; the model returns the stamped message instead.
- VirtualBroker.VirtualExecutionProvider.Submit: floats are exact reals without NaN; timestamps, slippage (always 0), the ids inside message texts, `cancel`, the never-filled order table, `reconcile` and the read-only views are not modelled.
- LiveController.LiveExecutionController.SubmitLiveOrder: the broker call does not re-enter the controller, so a kill switch thrown during it is not covered.
- LiveAuthorization.LiveAuthorizationGate.Update: flags named after methods or unknown attributes, and sharing of the prerequisites object with the caller, are not modelled.
- AutonomousLoop.AutonomousControlLoop.RunCycle: ML pipeline and decision engine are arbitrary answers or exceptions; the monitor is the shown one, and the engine, which may tick it again at the same instant, does nothing else to it; fields of a quote hold numbers or nothing; audit contents are not modelled; `force_validate=False` is never used by the loop.
- AutonomousLoop.AutonomousControlLoop.Examine: the reasons in the log leave out the details that the original appends to them (the quote's complaints, the stream's state, the exception's text).
- StreamHealth.StreamHealthMonitor.OnMessage: connect, disconnect and reconnect notices are not modelled; the loop starts from any state they may leave.
- MessageBus.MessageBus.Drain: runs one sequential caller and a finite script of handler actions, so a handler that publishes for ever is not a run of the model; no termination is claimed for it.
- MarketData.ValidateSeries: bar fields are numbers, NaN or infinities, or values `float` refuses; numeric strings as fields are not modelled, nor are the reason texts.
- Discovery.DiscoveryEngine.Finalize: provenance, timestamps and evidence lists of results are not modelled; analyzed count, notes and the short list of a cached answer are those of its first computation.
- Ranking.RankingIsCanonical: scores are finite numbers or refused by `float`; NaN scores, which Python cannot order, are not modelled.
- Capital.CapitalSafetyEngine.Transition: persistence, provenance and timestamps are not modelled; loading a registry from memory is not modelled.
- ImportGraph.Reach: takes the import graph as given; extracting it from source text is not modelled.
- Common.Upper: upper-casing follows ASCII only.
- Read-only look-ups (recent decisions, latest for an opportunity, status dictionaries) would only add easy members.
- Checkpoints and databases: SQLite, JSON files and audit trails are storage; whether a save raises is an input.
- Truncated hashes: result and transition ids are taken as their preimages.
- Licensing, key storage, MT5 and process discovery, the graphical interface, research and ML modules: foreign calls, presentation, or logic not decided by the code modelled here.
