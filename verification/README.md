# A verified model of the terminal hub

The repository lets browsers share terminal sessions that run on a remote machine. A *hub* (`internal/hub`)
sits between browsers (`web/app.js`) and *agents* (`internal/agent`); an agent multiplexes the output of many
terminal sessions (`internal/termserver`) over one connection with a small frame codec
(`internal/muxframe`). At most one browser at a time is meant to be the *writer* of an agent.

This project models that path in Dafny and proves what it keeps. `dafny verify dfyconfig.toml` checks it.

## How the model is laid out

| files | what they model |
|---|---|
| `MuxFrame`, `BrowserCodec` | the frame codec: the pure function, the buffer-filling code, and the browser's twin built from shifts, masks and an or, modelled bit by bit |
| `Registry` | `Hub.agents` as a value; one `Op` for each critical section of `Hub.mu` that changes it, and the registry as a history of those sections |
| `HubObjects` | the same critical sections, the fan-out, the broadcast and the undisturbed `request_write` and `release_write` as classes updated in place |
| `ClientLoop` | the handshake and the message loop of one client handler: the loop with its variables, and a specification that reads only the history of messages |
| `HubSteps` | the hub as a concurrent state machine: one step is one critical section, one write, one read, or one turn of the id counter; any number of handlers, agent connections and lock requests interleave |
| `HubBounds`, `HubHistory` | theorems about every interleaved run: the hand-over and lock bounds, who the writer can be, what each handler has written |
| `HubGrants`, `HubStatus` | exactly when, in any run, a grant takes the role from another client or lands on an agent that is not writable, and when a client was last told something untrue about its role |
| `HubRace` | runs in which these things happen |
| `HubSerial` | theorems about runs in which whole messages, attaches and departures are not interleaved |
| `HubLives` | the life of a handler in every run: the connection it writes to and the critical sections it enters, in order |
| `HubUndisturbed` | what an arrival, a typed message, a request, a release, a refused message and a departure come to when nobody interferes |
| `HubReplay`, `HubReplayRuns` | the hub object driven by whole histories of critical sections and output frames, and by the histories that the runs of `HubSteps` record |
| `FanOut` | what clients of either protocol receive from one stream of agent frames |
| `RelaySteps` | the relay of output with interleaved connections, snapshots, writes to single clients, and clients that come and go |
| `SessionRequests` | `requestSessions` and `deliverSessions` as a concurrent state machine with channels and timeouts |
| `AgentTable`, `AgentObjects` | the agent's table of open sessions, as a function of the messages read and as objects |
| `AgentStreams` | the forwarding goroutines, interleaved with each other and with the message loop |
| `TypingPath` | input end to end, from the messages of a client to the writes on terminal sessions |
| `TabTable`, `TabPage` | the browser's ordered table of tabs, and the page object that keeps the hub informed and sends what is typed |
| `BrowserPath`, `BrowserOutput` | browser, hub and agent joined: what a page sends is what a handler of the hub hears, and what a terminal puts out is what the terminal of a tab is written |
| `PtySession`, `Itoa` | the terminal read loop with its reused buffer, and the decimal renderer with its in-place reversal |

Runs are sequences of states in which each is obtained from the one before by an action (`HubSteps.IsRun`);
a scheduler may choose any action at any time, so a theorem about runs is a theorem about every interleaving.
Each handler carries a program counter that follows the code between two acquisitions of the lock. Writes on
agent connections, messages to clients, critical sections and grants are recorded in traces.

## What the proofs found

- `request_write` checks the lock, checks for a writer and sets the writer in separate critical sections
  (`internal/hub/hub.go:405-419`). Interleaved, two requests and a lock hand the role straight from one client to
  another, on a locked agent: `HubRace.GrantsRace` exhibits the run. `HubGrants.HandsOverExactly` says for every run in
  which steps this happens: in exactly those where, after the request last checked for a writer, another handler was
  granted the role and it has been held since. `HubGrants.LockedGrantExactly` does the same for the lock.
- A client can be left misinformed about its role: a broadcast reads the writer and sends it in separate steps
  (`internal/hub/hub.go:636-651`), and another handler's `setWriter` and whole broadcast can fall in between
  (`HubRace.StatusRace`). `HubStatus.StatusExactly` says for every run when: a client last told that it is not the
  writer, exactly if its own `setWriter` fell after that was read and it has kept the role; a client last told that it
  is, exactly if it dropped the role after that was read and has not gained it again.
- The channel of a session request can accept a second value before the request returns. It does so exactly when a
  delivery makes its offer after the request has taken its value (`SessionRequests.SecondValueExactly`,
  `SessionRequests.SecondValueBeforeReturnExactly`); an agent that answers each request id at most once never causes it
  (`SessionRequests.AnsweredOnceKeepsOne`).
- The decimal renderer answers a bare minus sign for the smallest integer, because negating it leaves it negative;
  it reads back correctly for exactly all other integers (`Itoa.DecimalReadsBack`).
- A page that has no tab left when its socket opens announces its default session before it sends the attach message
  that the hub demands first (`web/app.js:296-300`, `internal/hub/hub.go:298-300`); this happens exactly when there are
  no tabs (`TabPage.OpeningOrder`).
- A tab that a `sessions_sync` adds is not attached on that connection, and one that it removes is not detached
  (`web/app.js:349-350`): `TabPage.Page.SessionsSync` proves that the set of requested sessions stays as it was.
- The fallback of the `sessions_sync` handler for an active session without a tab (`web/app.js:351-359`) is
  unreachable: `TabPage.Page.SessionsSync` proves that branch dead.
- The encoding error that is ignored at `internal/hub/hub.go:481` cannot occur (`MuxFrame.DecodeThenEncode`).

## Model

| member | source | states |
|---|---|---|
| HubBounds.HandOverBound | internal/hub/hub.go:456-483 | under every interleaving, from any moment on and for as long as the agent's writer field does not name it, a handler forwards exactly the input frames that were already past both gates and are no longer waiting, so at most one |
| HubBounds.LockBound | internal/hub/hub.go:405-483 | under every interleaving, after a successful lock and until a successful unlock or a new registration, the agent stays locked and each handler that was there performs at most one more action in all out of forwarding an input frame and setting itself as writer, and only if it was past the lock check |
| HubBounds.LockKeepsNewcomersOut | internal/hub/hub.go:405-483 | a handler that connects after a successful lock forwards nothing and is never set as writer until a successful unlock or a new registration |
| HubBounds.HandOverStep | internal/hub/hub.go:456-483 | no action of anybody changes the number of frames forwarded plus due of a handler that is not the writer |
| HubBounds.LockedStaysLocked | internal/hub/hub.go:682-694 | a locked or absent agent becomes writable only by a successful unlock or a new registration; a refused request changes nothing |
| HubBounds.HandlersPersist | internal/hub/hub.go:310-349 | a handler keeps its effective claims and protocol through every run |
| HubHistory.WriterIsLive | internal/hub/hub.go:347-424 | in every reachable state, also after an agent registered over its old connection, the writer is empty or the unique id of a handler of that agent that was added, has not left, may write and has asked to |
| HubHistory.ClientsBelongToOneAgent | internal/hub/hub.go:523-590 | in every reachable state a client id is registered with at most one agent, under its own id, and belongs to a live handler bound to that agent |
| HubHistory.WrittenIsHistory | internal/hub/hub.go:359-484 | under every interleaving, what any handler, also one that has left, has written to its agent is the handshake's attach followed by exactly the attaches, detaches, resizes and input frames that the history of its messages and gate answers calls for, in order; or it has not greeted its agent and has written and heard nothing |
| HubHistory.WrittenStaysWithin | internal/hub/hub.go:388-434 | in every run, whatever a client sends, its handler writes no attach of another session than the claimed one, no attach or detach without a session, none at all for an old-protocol client, and input only with the write permission and, by the old protocol, for the claimed session |
| HubLives.WritesGoToOwnAgent | internal/hub/hub.go:334-363 | in every run everything that a handler writes goes to the one connection with which its own agent was registered when it looked it up |
| HubLives.LivesInOrder | internal/hub/hub.go:340-357 | in every run a handler adds its client with the protocol and session of its handshake, then records the session of its claims, then only takes the role for its client or clears it, and last removes its client; or it never adds it |
| HubHistory.ForwardedIsHistory | internal/hub/hub.go:456-483 | under every interleaving, the input frames a handler has forwarded are those of the history specification |
| HubHistory.RegistryFollowsOps | internal/hub/hub.go:495-694 | the registry of every run is what its sequence of critical sections makes of the empty registry, so the theorems on histories apply to runs |
| HubSteps.InvHolds | internal/hub/hub.go:334-356 | the invariant of the interleaved hub: ids are unique, and registered clients and writers belong to live handlers |
| HubSteps.TurnFits | internal/hub/hub.go:334-484 | a step of a handler writes only what it was due to write, enters the registry only under its own id, passes a gate only when the gate says yes, and leaves the lock check only through an open lock |
| HubSerial.StatusAgreement | internal/hub/hub.go:636-651 | in serial runs, whenever nobody is mid-message, each registered client was last told it may write exactly when it is the writer; so at most one was last told so |
| HubSerial.ExclusiveGrants | internal/hub/hub.go:405-424 | in serial runs the writer passes from one client to another only through a moment without a writer |
| HubSerial.NoGrantWhileLocked | internal/hub/hub.go:410-418 | in serial runs nobody becomes the writer of a locked agent |
| HubSerial.GrantStep | internal/hub/hub.go:405-424 | in serial runs a step keeps the writer, clears it, or fills an empty place of an unlocked agent with the client that moves |
| HubSerial.RequestIsOneDecision | internal/hub/hub.go:405-419 | undisturbed, the separate checks of `request_write` amount to one decision on the state it started in: the same refusal or the same grant |
| HubSerial.OnlyOwnRelease | internal/hub/hub.go:420-424 | in serial runs a release only ever clears the releasing client's own role |
| HubUndisturbed.RefusalIsTold | internal/hub/hub.go:405-417 | a refused request is answered to the one who asked with its reason, and changes nothing |
| HubUndisturbed.ReleaseIsOneDecision | internal/hub/hub.go:420-424 | undisturbed, a release of the writer clears the role and is announced, and that of anybody else does nothing |
| HubUndisturbed.TypingIsOneDecision | internal/hub/hub.go:456-483 | undisturbed, a binary message is written to the agent's connection at once if permission, focus, lock, role and session let it pass now, and is dropped otherwise; nothing else happens |
| HubUndisturbed.ArrivalIsOneAttach | internal/hub/hub.go:334-367 | undisturbed, an accepted client is registered with the protocol and session of its handshake under the next id, its session is recorded, the agent is sent the attach on the connection it is registered with, and the client is told that it is attached, its permission and its role |
| HubUndisturbed.ArrivalWithoutAgent | internal/hub/hub.go:334-338 | without its agent nothing is registered, written or told |
| HubUndisturbed.DepartureIsOneDecision | internal/hub/hub.go:351-356 | undisturbed, a departure removes the client and goes on to announce it exactly if it was the writer |
| HubUndisturbed.RefusedMessageEnds | internal/hub/hub.go:383-442 | a message that ends the loop is answered with an error, nothing is written to the agent, and the handler leaves |
| HubGrants.HandsOverExactly | internal/hub/hub.go:405-419 | in any run, a step passes the role straight from one client to another if and only if it is the `setWriter` of a request after whose last check for a writer another handler was granted the role, which has been held since |
| HubGrants.TakeoverExactly | internal/hub/hub.go:414-418 | every grant has a last check for a writer, and takes the role from somebody else if and only if another handler was granted it in between and it has been held since |
| HubGrants.HeldByOtherExactly | internal/hub/hub.go:602-630 | from a state in which a handler or nobody holds the role, and while that handler does nothing, the role is held by somebody else if and only if another handler was granted it and it has been held since |
| HubGrants.LockedGrantExactly | internal/hub/hub.go:410-418 | a handler sets the writer of an agent that is not writable if and only if, since the request checked the lock, the agent was successfully locked or left, and was neither successfully unlocked nor registered again |
| HubGrants.UnwritableExactly | internal/hub/hub.go:672-694 | a writable agent is later not writable if and only if it was successfully locked or left, and neither unlocked nor registered since |
| HubGrants.ReleaseExactly | internal/hub/hub.go:420-424 | in any run a release follows a check that found the handler to be the writer, leaves no writer, and takes the role from somebody else if and only if another handler was granted it in between and it has been held since |
| HubRace.GrantsRace | internal/hub/hub.go:405-419 | both conditions are met in some run: in a reachable state the next turn of one client takes the role of a locked agent straight from another |
| HubStatus.StatusExactly | internal/hub/hub.go:632-651 | in any run, every registered client that has been told its role was told what some handler had read in an earlier step of its own; told false, this is wrong if and only if the client's own `setWriter` fell after the reading and it has not dropped the role since; told true, if and only if it dropped the role after the reading and has not gained it since |
| HubStatus.RoleExactly | internal/hub/hub.go:495-630 | from any state on, a client has the role later if and only if it gained and kept it, or had it and did not drop it for good; with the exact actions that gain and drop it |
| HubStatus.WriterWasRead | internal/hub/hub.go:641-650 | what a handler is about to tell a client is what it read of the writer in an earlier step |
| HubStatus.AudienceIsBound | internal/hub/hub.go:636-640 | in any run a broadcast is only for clients bound to its agent |
| HubRace.StatusRace | internal/hub/hub.go:636-651 | in a reachable hub with all handlers at rest the writer was last told that it is not, and another client that it is |
| Registry.RegistryIsHistory | internal/hub/hub.go:495-515 | an agent is registered exactly when some registration has not been followed by a newer one or by its own departure, and its state is what later sections made of a fresh one |
| Registry.LateUnregisterIsIgnored | internal/hub/hub.go:503-515 | the departure of a superseded connection changes nothing and closes no client |
| Registry.UnregisterOfServingAgent | internal/hub/hub.go:503-515 | the departure of the serving connection removes that agent only and closes exactly its clients |
| Registry.LockExactly | internal/hub/hub.go:682-694 | after any history a lock request takes effect if and only if the agent is registered and the session last recorded since then is empty or the requested one; it then sets the lock as asked and nothing else, and otherwise changes nothing |
| Registry.SessionIsLast | internal/hub/hub.go:578-586 | the recorded session is the last one set since the agent was registered |
| Registry.RefusalsExactly | internal/hub/hub.go:405-418 | when the role is refused, and for which of the three reasons |
| ClientLoop.ControlLoop | internal/hub/hub.go:370-484 | the mutable loop writes to the agent exactly what the history specification says, and returns early exactly at the first message that ends it |
| ClientLoop.GateFrame | internal/hub/hub.go:466-482 | decoding and encoding again, or wrapping, yields the frame of the specification, and no frame exactly when the specification has none |
| ClientLoop.ViewIsHistory | internal/hub/hub.go:370-454 | the loop's focus flag is "the last on or off was not off", and its active session is the last "active" or else the first non-empty session named |
| ClientLoop.SaidStep | internal/hub/hub.go:375-484 | one more message adds to the history's writes what the loop writes with its variables |
| ClientLoop.SaidFrames | internal/hub/hub.go:456-483 | the input frames among all writes of a handler are those of the messages for which every gate of the history is open |
| ClientLoop.EndedSaysNothing | internal/hub/hub.go:383-442 | nothing after the message that ended the loop has an effect |
| ClientLoop.EndsExactly | internal/hub/hub.go:383-442 | which messages end the loop, by either protocol |
| ClientLoop.SaidStaysWithin | internal/hub/hub.go:388-434 | whatever a client sends, all that its handler writes stays within what the client may name |
| ClientLoop.NothingAfterBadJson | internal/hub/hub.go:383-386 | nothing is written from a message on that is no JSON |
| ClientLoop.ControlsArePassedOn | internal/hub/hub.go:388-448 | each attach, detach and resize of a new-protocol client that is not refused is passed on at once for the session it names, and a resize that names none for the active one |
| ClientLoop.OldControlsAreDropped | internal/hub/hub.go:388-448 | an old-protocol client's resizes are passed on as they are, and its other control messages are not |
| ClientLoop.HandshakeAccepts | internal/hub/hub.go:298-332 | which handshakes are accepted, as an if and only if |
| ClientLoop.HandshakeBindsToToken | internal/hub/hub.go:310-332 | an accepted client is bound to the agent, session and permission of its token, and an old-protocol client to exactly the session it named |
| ClientLoop.HandshakeOutcome | internal/hub/hub.go:306-361 | the protocol, claims and first session of every accepted client |
| ClientLoop.RefusalsExactly | internal/hub/hub.go:298-332 | which refusal a client is answered, as an if and only if for each |
| FanOut.ProtocolsAgree | internal/hub/hub.go:254-278 | an old-protocol client of a session receives exactly the payloads, in order, that a new-protocol client over the same frames decodes for that session |
| FanOut.OtherSessionsAreInvisible | internal/hub/hub.go:269-276 | an old-protocol client's stream is determined by the frames of its own session |
| FanOut.ValidFramesAreKept | internal/hub/hub.go:261-278 | a new-protocol client receives the frames at exactly those positions that decode, each once and in order |
| FanOut.SessionlessReceivesAll | internal/hub/hub.go:270-275 | an old-protocol client without a session receives the payload of every frame that decodes, each once and in order |
| RelaySteps.RelayedInOrder | internal/hub/hub.go:254-278 | under every interleaving of connections, snapshots, single writes, departures and registrations, what a connection has sent a client, with what it still has to send, is the relayed form of exactly those frames it read while the client was in the snapshot, in order |
| RelaySteps.ClientStream | internal/hub/hub.go:254-278 | a client's stream is a merge that keeps the order of each connection, also when an agent has several |
| RelaySteps.SnapshotsAreRegistry | internal/hub/hub.go:559-576 | the snapshot for a frame is the clients registered with the agent at that moment |
| RelaySteps.AlwaysThere | internal/hub/hub.go:254-278 | a client in every snapshot is due exactly what the fan-out of the whole stream gives it |
| HubObjects.Hub.RegisterAgent | internal/hub/hub.go:495-501 | puts a fresh state in the place of any old one |
| HubObjects.Hub.UnregisterAgent | internal/hub/hub.go:503-515 | removes the agent only for its own connection, and closes exactly its clients |
| HubObjects.Hub.AddClient | internal/hub/hub.go:523-535 | adds the client to the state registered now, or reports that there is none |
| HubObjects.Hub.RemoveClient | internal/hub/hub.go:537-550 | removes the client, and the writer role if it had it, and reports whether it had |
| HubObjects.Hub.NextClientID | internal/hub/hub.go:588-590 | answers a non-empty id that no client was given before |
| HubObjects.Hub.SetWebWritable | internal/hub/hub.go:682-694 | locks or unlocks only for the recorded session, and reports whether it did |
| HubObjects.Hub.BroadcastWriteStatus | internal/hub/hub.go:636-651 | tells every client of the agent once whether it is the writer, and tells nobody else anything |
| HubReplay.Replay | internal/hub/hub.go:247-289 | the hub object, driven by any history of critical sections and output frames, ends with the registry of that history, and every client registered then was sent exactly what its protocol and session call for of its agent's output since it was added |
| HubReplayRuns.ReplayRun | internal/hub/hub.go:495-694 | the object, driven by the critical sections that any interleaved run has recorded, ends with the registry of that run |
| HubObjects.Hub.RequestWrite | internal/hub/hub.go:405-419 | refuses for the first reason that applies and tells only the one who asked, or grants and tells every client of the agent |
| HubObjects.Hub.CheckRequest | internal/hub/hub.go:406-417 | the checks, in their order, give the reason of the registry value |
| HubObjects.Hub.ReleaseWrite | internal/hub/hub.go:420-424 | only the writer's own release counts, and then every client is told it may not write |
| SessionRequests.AnswerIsOwnFirst | internal/hub/hub.go:726-762 | under every interleaving of requests, deliveries and timeouts, a request that returns a list returns the first value accepted under its own id, which no other request has |
| SessionRequests.PendingExactlyWhileOpen | internal/hub/hub.go:733-740 | a request is pending exactly from its insertion to its return |
| SessionRequests.AskedUnderOwnId | internal/hub/hub.go:742 | a request that has gone out was asked for exactly once, under its own id, and nothing else was asked |
| SessionRequests.AnsweredRequestReturns | internal/hub/hub.go:726-762 | from any state, a new request that finds its agent and is answered before its timer fires returns that answer |
| SessionRequests.OfflineRequestFails | internal/hub/hub.go:727-730 | a request that does not find its agent returns an error, and nothing is asked |
| SessionRequests.TimedOutRequestFails | internal/hub/hub.go:746-747 | a request whose timer fires first returns an error and is no longer pending |
| SessionRequests.DeliveriesNeverBlock | internal/hub/hub.go:751-762 | every delivery can always take its next step, and its value is accepted exactly when the request has taken all that was accepted before |
| SessionRequests.AtMostOneUntilTaken | internal/hub/hub.go:732-762 | a channel has accepted the value taken, if any, and the one waiting, if any: at most one until the request has taken one |
| SessionRequests.SecondValueExactly | internal/hub/hub.go:736-762 | a channel has accepted two values if and only if some delivery made its offer on it after the request had taken its value |
| SessionRequests.SecondValueBeforeReturnExactly | internal/hub/hub.go:736-762 | before the request returns, its channel has accepted more than one value if and only if some delivery made its offer while the request, its value taken, was about to leave the table |
| SessionRequests.AnsweredOnceKeepsOne | internal/hub/hub.go:751-762 | a request whose id is delivered at most once has a channel that accepts at most one value |
| SessionRequests.SecondValueBeforeReturn | internal/hub/hub.go:736-745 | the condition is met by some events |
| AgentTable.HandlesAreConserved | internal/agent/agent.go:61-189 | after any messages with any attach attempts failing, each handle obtained is in the table under its own id with nothing closed, or was closed exactly once |
| AgentTable.FailureClosesEverythingOnce | internal/agent/agent.go:64-72 | on a read error the table ends empty with every handle ever obtained closed exactly once |
| AgentTable.AttachOpensAtMostOne | internal/agent/agent.go:86-121 | a handle is opened exactly for an attach of a free non-empty id that succeeds; a repeated attach opens nothing |
| AgentTable.AttachOpens | internal/agent/agent.go:139-147 | after any messages, a successful attach leaves the session open under a handle of its own id: the one it had, untouched, or a new one |
| AgentTable.DetachCloses | internal/agent/agent.go:148-151 | after any messages, a detach leaves the session not open, every handle it ever had closed once, and every other handle as it was |
| AgentTable.ResizeReaches | internal/agent/agent.go:152-161 | a resize sets the size of the open session it names, and of no other |
| AgentTable.ListsAreAnswered | internal/agent/agent.go:162-171 | every request for the list is answered once, in order, under its own id |
| AgentTable.FailedAttachIsAnswered | internal/agent/agent.go:143-147 | a failing attach of a session that is not open is answered with an error and changes nothing else |
| AgentObjects.Client.Run | internal/agent/agent.go:123-189 | the loop over objects ends in the state that the conservation theorems speak of |
| AgentObjects.Client.CloseAll | internal/agent/agent.go:64-72 | closing in any order of the map closes every open session once |
| AgentObjects.Client.CloseSession | internal/agent/agent.go:74-84 | closes and removes one session, or does nothing for an unknown id |
| AgentObjects.Client.AttachSession | internal/agent/agent.go:86-100 | opens at most one fresh session, under its own id |
| AgentObjects.Client.HandleMessage | internal/agent/agent.go:132-188 | one message changes the table, the session it names, and the replies as the specification says |
| AgentObjects.CloseAllStep | internal/agent/agent.go:67-71 | the order in which sessions are closed does not matter |
| AgentStreams.EachAttachSendsPrefix | internal/agent/agent.go:97-119 | for any number of sessions and any interleaving of forwarders and messages, the frames of each attach decode to an in-order, unaltered prefix of its own output; to nothing if the id is too long to frame |
| AgentStreams.OpenStreamIsComplete | internal/agent/agent.go:101-119 | an attach that was not closed and whose output has ended has sent all of it when its goroutine stops |
| AgentStreams.SessionOutputEndToEnd | internal/hub/hub.go:254-278 | what a client of either protocol receives for a session is an order-preserving merge of one in-order, unaltered prefix for each attach of it, however often it was detached and attached again and whatever else shares the connection |
| AgentStreams.SoleAttachIsPrefix | internal/hub/hub.go:254-278 | for a session attached once, it is an in-order, unaltered prefix of what its terminal put out |
| AgentStreams.PayloadsOfMerge | internal/agent/agent.go:97-119 | demultiplexing the merged connection by session gives an order-preserving merge of what each attach of that session sent |
| TypingPath.TypingEndToEnd | internal/agent/agent.go:177-187 | with one client typing over a connection, the payloads written to sessions are payloads that client sent, in order, none repeated or altered, each to the session named with it and each past open gates |
| TypingPath.SoleWriterIsSoleTypist | internal/hub/hub.go:405-483 | a client that alone was ever granted the role is the only one that has typed, on every connection and in every interleaving |
| TypingPath.WritesAreTyped | internal/agent/agent.go:177-187 | each handle has been written exactly the logged payloads for it, each under its own id |
| BrowserPath.KeystrokesEndToEnd | web/app.js:446-457 | when the handler of a page is the only one to have typed over an agent connection, the payloads written to sessions are keystrokes of that page, in the order typed, none repeated or altered, each to the tab it was typed in |
| BrowserPath.HubFollowsPage | internal/hub/hub.go:370-482 | in any run, a handler that has heard all that an open page has sent holds the page's active tab as its active session, so its gate passes a frame if and only if it was framed for that tab |
| BrowserOutput.ShowOutput | web/app.js:382-396 | each tab whose terminal was empty shows an order-preserving merge of one in-order, unaltered prefix of the output of each attach of its session, and nothing of other sessions |
| MuxFrame.CodecIsBijection | internal/muxframe/muxframe.go:8-37 | decoding answers a frame exactly when encoding that frame answers the same bytes |
| MuxFrame.DecodeThenEncode | internal/hub/hub.go:474-482 | encoding what was decoded succeeds and gives the same bytes back |
| MuxFrame.RejectedIffNotAnEncoding | internal/muxframe/muxframe.go:23-37 | a message is rejected exactly when no frame is sent as it |
| MuxFrame.FrameLayout | internal/muxframe/muxframe.go:8-21 | the byte layout and exactly when each error occurs |
| MuxFrame.EncodeBuffer | internal/muxframe/muxframe.go:8-21 | filling the allocated buffer yields the encoding |
| BrowserCodec.EncodeFrame | web/app.js:40-51 | shifts and masks yield the hub's encoding and errors |
| BrowserCodec.Length | web/app.js:56 | a shift and an or of two bytes are the big-endian number |
| BrowserCodec.BrowserDecodesLikeHub | web/app.js:53-62 | every message means the same to the browser as to hub and agent, errors included |
| TabTable.ApplySessionsSync | web/app.js:71-83 | the loops with pushes compute the difference lists |
| TabTable.DistinctKeepsOrder | web/app.js:72-73 | a set built from a list keeps first occurrences in their order |
| TabTable.SyncParts | web/app.js:71-83 | what the added, removed and received lists hold, each name once |
| TabTable.AddingPutsLast | web/app.js:459-505 | a new tab comes last, and is active if it is the only one |
| TabTable.ClosingActivatesFirst | web/app.js:533-542 | a closed tab is gone; if it was active, the first of those left takes its place, and otherwise the active one stays |
| TabTable.ActivatingKnown | web/app.js:507-509 | only a known tab becomes active |
| TabTable.SyncLeaves | web/app.js:346-361 | a sync leaves the surviving keys in old order followed by the new non-empty names in order of first occurrence, and keeps a surviving active session |
| TabTable.EverySyncedNameHasATab | web/app.js:346-361 | after a sync there are tabs for exactly the non-empty names received |
| TabTable.SyncIsIdempotent | web/app.js:346-361 | the same list again changes nothing |
| TabTable.ReachableTabsOk | web/app.js:459-543 | in every reachable state tabs have distinct non-empty names, and the active session is null exactly when there are none and otherwise a member |
| TabPage.Page.AddSession | web/app.js:459-505 | adds a new non-empty name at the end; the first tab becomes active and is announced |
| TabPage.Page.SetActive | web/app.js:507-523 | activates a known tab and tells the hub, in that order and nothing more |
| TabPage.Page.CloseSession | web/app.js:525-543 | removes the tab, detaches it only if asked to, and leaves the hub with the new active session and otherwise the same requests |
| TabPage.Page.SessionsSync | web/app.js:346-361 | the handler follows the specification of a sync, keeps the hub informed of the active session, and requests nothing: added tabs are not attached and removed ones not detached |
| TabPage.Page.PromptSession | web/app.js:556-568 | a new name is added, attached once and activated; a known one only activated |
| TabPage.Page.OnOpen | web/app.js:291-315 | everything that is sent when the socket opens, message by message; every tab is requested, and the page is no writer until told so |
| TabPage.OpeningOrder | web/app.js:295-311 | the first message is the attach if and only if the page still had a tab; every tab is attached and the hub is left with the active session |
| TabPage.Page.HandleInput | web/app.js:446-457 | typed bytes go out as one input message, framed for their tab, if and only if that tab is active, the page is the writer, the socket is open and the tab can be framed; the log of keystrokes stays that of the input sent |
| TabPage.Page.SendSeq | web/app.js:590-596 | a toolbar key is typed in the active tab under the same conditions |
| TabPage.Page.Gained | web/app.js:262-266 | bytes typed in a tab are sent if and only if the socket is open, the page is the writer and, in hub mode, the tab's name can be framed |
| TabPage.Page.OnBinary | web/app.js:382-396 | in hub mode the payload of a frame is written to the terminal of its tab, if there is one, and otherwise a message to the active terminal |
| TabPage.TabsShowTheirOwn | web/app.js:387-396 | over any stream each tab's terminal is written exactly the payloads of its own session, in order, and no other terminal is written |
| PtySession.Session.ReadLoop | internal/termserver/local.go:110-127 | at its end every queued chunk still holds the bytes it was queued with, although all reads shared one buffer, and the channel is closed exactly after an error |
| PtySession.ChunksConserveBytes | internal/termserver/local.go:113-119 | the queued chunks, joined, are the bytes read up to the first error |
| PtySession.ChunksFitBuffer | internal/termserver/local.go:112-119 | no chunk is empty or larger than the buffer |
| PtySession.EndsAtFailure | internal/termserver/local.go:120-125 | the output ends exactly if some read fails |
| PtySession.Session.Close | internal/termserver/local.go:100-108 | however often called, the device is closed once and the session killed once, if at all |
| Itoa.Render | internal/devutil/ports.go:28-48 | the digit loop and the reversal compute the decimal text |
| Itoa.ReverseInPlace | internal/devutil/ports.go:44-46 | the index swaps reverse the buffer |
| Itoa.DecimalReadsBack | internal/devutil/ports.go:28-48 | the text reads back as the value exactly for integers other than the minimum |
| Itoa.DecimalIsInjective | internal/devutil/ports.go:28-48 | different integers have different texts |
| Itoa.NoLeadingZero | internal/devutil/ports.go:28-48 | no leading zeros, and a minus sign exactly for negative numbers |

## Left out

- WebSocket upgrade, HTTP handlers, authentication, JSON and token signing: library and I/O wrappers. Control messages are a datatype with a case for invalid JSON, and claims are given.
- Real time: a timeout is a step that may happen at any moment; retry and reconnect timers are left out.
- Processes: tmux, the terminal device and session listing are foreign calls. Attaching yields a fresh handle or fails; the read loop and the once-only close are modelled, and the blocking of the loop on a full output channel is not.
- Resizing terminal sessions: resize messages are followed up to the session that the agent sets, and their effect on the device is not modelled.
- DOM, terminal emulator, QR codes, URLs, tailnet and port binding: no property beyond I/O.
- Text encodings: session ids are byte sequences in the codec, so replacement characters and byte order marks of `TextEncoder` and `TextDecoder` are not modelled.
- Counters: client and request ids are natural numbers, with 0 for the empty string, instead of rendered 64-bit counters; their overflow is left out.
- The interleaved hub leaves out `syncSessions` with its broadcast and the relay of output: they do not touch the writer, the lock or input. Requests are interleaved in `SessionRequests` and the relay in `RelaySteps`.
- Errors sent before a client has an id (`sendError`) are not recorded in the trace of messages; the handshake gives them as reasons, and the two errors that end the loop share one text.
- Failed writes: only a failed "attached" message has an effect in the code (`internal/hub/hub.go:364-366`) and it is modelled; others are recorded as if they succeeded.
- HubReplay.Replay: relays each frame in one step, because the interleaved relay is `RelaySteps`.
- HubObjects.Hub.RequestWrite: states the undisturbed handling only, because its separate critical sections are interleaved in `HubSteps` and bounded there.
- HubSerial.ExclusiveGrants: holds for serial runs only, because `HubRace.GrantsRace` shows that it fails when requests interleave; `HubGrants.HandsOverExactly` is the condition for any run.
- HubSerial.NoGrantWhileLocked: holds for serial runs only; `HubGrants.LockedGrantExactly` is the condition for any run.
- HubSerial.StatusAgreement: holds for serial runs only, because another handler's `setWriter` and broadcast can fall between the reading of the writer and its sending; `HubStatus.StatusExactly` is the condition for any run.
- AgentStreams.EachAttachSendsPrefix: assumes that writes on the connection succeed, because the code ignores their errors and a chunk whose write fails is lost.
- Keystrokes: they are modelled as the bytes left by the Ctrl and Shift modifiers, and the rate limit on requests for the writer role is a parameter.
- `getBackoffMs`, `applyCtrl`, `applyShift`, `transformInput`, `timeSeconds`, heartbeats and the forwarding loop of the local server: only easy members.
