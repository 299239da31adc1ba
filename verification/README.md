# A verified model of yonaa's server and the sockets under it

yonaa is a C++ socket library. Its `server` runs one network thread that accepts connections,
reads from clients and sweeps out disconnected ones, while user handlers and other threads call
back into it. Several structures have to stay in step for that to work: the owning vector
`clients_`, the poll group's `pfds_`, each connection's socket, the id counter, the sticky flag
`has_disconnected_clients_` and the shared error code `ec_`. This project models that engine and
the pieces it stands on, and proves what every run of it does.

`dafny verify dfyconfig.toml` checks the whole project.

## How it is built

* **The transition system** (`Machine.dfy`). A `State` holds the server's fields, the open
  descriptors, the callbacks made so far, what was sent to and read from each client, what was done
  at both ends of each client's stream, and where the thread is.
  One step is one decision of the thread (a test of `running_`, a system call with the kernel's
  answer, a callback) or one outside event: a call of `stop`, `remove_client`, `message_client` or `message_all_clients` from a
  handler or another thread, a client sending or closing at the far end, or the rest of the process
  opening and closing descriptors. Kernel answers are inputs (data must be the next bytes of the
  client's stream, an end of stream its end), so a statement about all input sequences is a statement about all runs.
* **Two sweeps.** `AsWritten` uses `std::remove_if` on `unique_ptr`s as the code does: assigning
  to a slot destroys what it owned, a moved-from slot is null, and dereferencing a null slot leads
  to the absorbing `Fault`. `Intended` uses the stable partition the code was written to expect.
  Everything else is shared, and the whole-run theorems hold for both.
* **The invariant** (`Clients`, `Separation`, `Invariant`, `Interface`, `Preservation`). One
  predicate over the whole state, kept by every step; `Runs`, `Sweep`, `Errors`, `Stopping`,
  `Broadcasting`, `Delivery`, `Outgoing` and `Scenarios` draw the consequences.
* **The reference** (`Reference.dfy`). What each step does, said a second time and in other terms:
  which client is meant, which fields change, what is closed in which order, and that nothing else
  happens. In every reachable state the transition system does exactly that
  (`Reference.StepIsAsDescribed`, an equivalence).
* **The objects** (`Server`, `Connection`, `Host`, `Poll`, `SocketOps`, `OwningVector`). The same
  code as classes and loops that update fields. `Servers.Server` records its inputs in a ghost field, and
  its `Valid()` says that the fields are exactly the state those inputs lead to in the transition
  system, so every theorem about runs holds of the object. A server built with `alone` gets no calls
  from handlers or other threads; for it every phase leaves `running` as it was, so that no phase can
  end before its work is done.
* **The bytes** (`Wire.dfy`). The send loop and `receive` with the narrowing of system call results
  to `int` and the modulo-2^64 count, and the stream between two connections. The server's calls
  carry the kernel's answers to their sends, so what `message_client` leaves in `ec_` is what this
  loop leaves there.

## What the code does not promise

* Removing a client that is not at the end of `clients_` makes the next sweep dereference a null
  pointer. `Scenarios.FaultIsReachable` is a run that does it (two clients, remove the first);
  `Sweep.FaultIff` is the exact condition, and `Servers.Server.HandleDisconnectedClients` states
  it for one sweep.
* `ec_` is never cleared by a success, so one failed send to one client stops all accepting and
  all delivery (`Scenarios.OneFailedSendEndsService`). Only two things clear it
  (`Errors.ErrorClearedIff`): an end of stream that finds errno equal to 0, and a send of which the
  kernel takes a count that is narrowed to -1, 2^32 - 1 bytes or more at once, while errno is 0
  (`Scenarios.ErrorsOutliveIff`).
* For the same reason a broadcast marks every addressed client from the first failing send on;
  from 2^32 - 1 bytes on it may spare some of them (`Scenarios.MarksFromFirstFailureIff`).
* Bytes that arrive while `ec_` is set are taken off the stream and dropped
  (`Scenarios.LossIsReachable` is a run that does it, `Delivery.LossIsExact` the exact condition).
  They are always the last bytes of their client: what is delivered is a prefix of what was taken
  (`Delivery.DeliveredIsPrefix`).
* All is well with `send` and `receive` while every count the kernel answers fits `int`
  (`Wire.SendLoopExact`, `Wire.ReceivedIsPrefix`). Otherwise `send` can report success after part of
  a buffer of more than 2^31 bytes (`Wire.SuccessIsCompleteIff`), so that the next message follows a
  gap (`Scenarios.SendsStayInOrderIff`); from 2^32 bytes on a count of 2^32 is narrowed to 0 and the
  same bytes go out twice (`Wire.SendsPrefixIff`); `receive` can lose bytes when asked for 2^31 or
  more (`Wire.ReadsFaithfullyIff`); and a peek at 2^32 bytes closes the connection
  (`Wire.PeeksHarmlesslyIff`).
* Move assignment drops the descriptor the target held without closing it, and moving a connection
  onto itself drops its own (`Connections.Connection.MoveFrom`).
* A `stop` made before the network thread has set `running_` is lost; one made at any later time is
  obeyed for good (`Stopping.StopIsObeyedIff`).
* The header says that `receive` closes the connection when an error occurs
  (include/yonaa/connection.hpp:119-121). The code closes it at the end of the stream only
  (src/connection.cpp:158-170), and there stores whatever errno held before. The model follows
  the code.

## Model

| member | source | states |
|---|---|---|
| `OwningVector.RemoveIfEffect` | src/server.cpp:203-204 | After `remove_if` the front holds the kept clients in order; tail slot j is null iff client j was kept and otherwise still owns it; the null tail slots are as many as the marked clients destroyed by overwriting |
| `OwningVector.RemoveIfIsPartitionIff` | src/server.cpp:203-214 | `remove_if` gives the stable partition, destroys nobody and leaves no null slot, each exactly when the marked clients are a suffix |
| `OwningVector.FirstMarked` | src/server.cpp:203-204 | The search that begins `remove_if` stops at the first marked client, and everything before it is kept |
| `OwningVector.RemoveIf` | src/server.cpp:203-204 | The in-place algorithm with move assignment produces exactly the vector, boundary and destroyed clients that the lemmas above are about |
| `Poll.MaskIsExact` | src/detail/poll.cpp:12-21 | The status mask carries readable, writable, error and hung-up, each exactly when poll reported it, no other bit, and is empty for any other condition |
| `Poll.WithoutIsExact` | src/detail/poll.cpp:48-51 | Removing a descriptor keeps an entry iff it was there and is not of that descriptor |
| `Poll.WithoutInOrder` | src/detail/poll.cpp:48-51 | The entries kept are exactly those of other descriptors, each once and in their old order |
| `Poll.ReportsAreExact` | src/detail/poll.cpp:53-64 | A readiness report is made exactly for the entries with a nonzero revents field, with the translated status |
| `Poll.ReportsInOrder` | src/detail/poll.cpp:53-64 | The reports are exactly those of the entries with nonzero revents, each once and in the order of the entries |
| `Poll.PollGroup.constructor` | src/detail/poll.cpp:35-38 | The group asks for input iff configured readable, output iff configured writable, and starts empty |
| `Poll.PollGroup.AddSocket` | src/detail/poll.cpp:40-46 | One entry with the group's configuration is appended |
| `Poll.PollGroup.RemoveSocket` | src/detail/poll.cpp:48-51 | The loop removes every entry of the descriptor and keeps the order of the rest |
| `Poll.PollGroup.DoPoll` | src/detail/poll.cpp:53-64 | A successful poll puts each answer into its own entry's revents, a failed one leaves old ones, and the result reports exactly the nonzero ones in order |
| `History.LifeIsProtocol` | src/server.cpp:101-218 | The per-client life automaton is in order iff the callbacks restricted to that client read Connect Data* Disconnect? |
| `Interface.CallIsQuiet` | src/server.cpp:32-80 | No public call, at any moment, changes the vector's shape, the poll group, descriptors, ids, callbacks or bytes read; it only marks clients, and never clears the flag or restarts the loop |
| `Interface.CallKeepsRunning` | src/server.cpp:32-80 | No call but stop touches `running_` |
| `Interface.QuietKeepsInv` | src/server.cpp:32-80 | Any such call, from a handler or another thread, keeps the whole invariant at every point of the loop |
| `Preservation.StepInv` | src/server.cpp:83-218 | Every step of the thread, kernel, callers and process keeps the invariant, in both modes |
| `Preservation.ReachableInv` | src/server.cpp:83-218 | The invariant holds in every state of every run |
| `Reference.StepIsAsDescribed` | src/server.cpp:32-218 | In every reachable state, for every possible input, the next state is the one the reference describes and no other, in both modes; a broadcast over a null slot faults |
| `Reference.ReadEventInputs` | src/server.cpp:171-182 | An error or hang-up wins over readable: recv is called exactly for an event with neither and with input, and its answer is what the client's stream can give |
| `Reference.DropIs` | src/server.cpp:171-177 | An event with an error or a hang-up marks the client holding its descriptor and nobody else, sets the flag, goes on to the next event, and changes nothing else |
| `Reference.ReceivedIs` | src/server.cpp:182-193 | A failed recv stores its errno and marks the client; the end of the stream also closes its socket; data is passed on, or behind an old error taken and its client marked; nothing else changes |
| `Reference.CallIs` | src/server.cpp:32-80 | stop clears `running_` only; remove_client marks the client of that id, sets the flag, and does nothing for an unknown id; message_client sends to that client if connected and marks it if `ec_` is set afterwards; each trips over a null slot met first |
| `Reference.SeparateIs` | src/server.cpp:199-204 | The start of a sweep keeps the kept clients in front, leaves marked ones in the tail and null where a kept one was, and closes exactly the overwritten clients' sockets, in order |
| `Reference.WalkIs` | src/server.cpp:207-217 | Each client of the tail leaves the poll group, is closed and told so; the end erases the tail and closes nothing more; a null slot faults |
| `Reference.AcceptIs` | src/server.cpp:119-144 | An accepted socket becomes a connected client with the id taken, watched and announced; behind an old error it is closed and the id given back |
| `Reference.PollIs` | src/server.cpp:157 | Polling stores the kernel's answer in the entries, or leaves old ones if it failed, and reports from them |
| `Runs.CallbackProtocol` | src/server.cpp:101-218 | In every run, with any re-entrant calls, the callbacks for one id read Connect Data* Disconnect?, also up to a fault |
| `Runs.IndexAgreement` | src/server.cpp:101-108 | At the loop head and when polled, the poll group lists exactly the clients' descriptors in order, all distinct, each open and held by its own connection |
| `Runs.ClosedOnce` | src/connection.cpp:13-40 | Over a whole run each descriptor the server obtained was closed exactly once or is still open, and nothing is closed that was not open, even in a faulted run |
| `Runs.OwnedByExactlyOne` | src/server.cpp:123-138 | Every descriptor the server holds is the acceptor's or belongs to exactly one client |
| `Runs.NothingLeaks` | src/server.cpp:17-22 | After the server is destroyed every descriptor it opened has been closed as often as opened |
| `Runs.ForeignUntouched` | src/connection.cpp:71-79 | No step of the server closes or takes a descriptor that belongs to the rest of the process |
| `Runs.ExitClosesAcceptor` | src/server.cpp:101-110 | When the thread ends the acceptor is closed and only clients' descriptors remain |
| `Runs.IdAllocation` | src/server.cpp:119-144 | Connect callbacks carry 1, 2, 3, ... without gap or repeat; between attempts the next id is the connect count plus one, so a failed accept uses none |
| `Runs.LookupExact` | src/server.cpp:225-231 | Outside a sweep clients are strictly increasing by id, so first-match lookup finds position i iff that client has the id, and id 0 is nobody |
| `Runs.Conservation` | src/server.cpp:137-144 | At the loop head connects minus disconnects is the vector's size, and its ids are exactly those connected and not yet disconnected |
| `Runs.FlagIsSound` | src/server.cpp:199-200 | A clear flag means that nobody is marked, so skipping the sweep equals performing it |
| `Runs.MarksStick` | src/server.cpp:68-80 | No step unmarks or removes a marked client before the next sweep begins, also one marked while a sweep that leaves it in place is under way |
| `Runs.EventResolution` | src/server.cpp:156-169 | Every readiness report resolves to exactly one client with an open connection, reports name distinct clients, and the "unable to find client" branch is dead |
| `Sweep.SweepEffect` | src/server.cpp:199-218 | Whatever is called during a sweep, it ends with exactly the clients kept at its start (new marks aside), the poll group watching exactly them, one Disconnect per marked client in order, and exactly their descriptors closed |
| `Sweep.MarkedAreRemoved` | src/server.cpp:207-217 | A client marked when a sweep begins is out of the vector and got its Disconnect when it ends |
| `Sweep.SweepAgreesIff` | src/server.cpp:199-218 | A sweep begins as the intended one iff the marked clients are a suffix; otherwise a null slot lies ahead of its walk |
| `Sweep.DoomedForever` | src/server.cpp:207-214 | With a null slot ahead the sweep never ends normally, whatever is called meanwhile |
| `Sweep.DoomedFaults` | src/server.cpp:207-214 | Such a sweep has faulted once the thread has taken as many of its own steps as the slots ahead allow, and is still in the walk before |
| `Sweep.RunsAgree` | src/server.cpp:199-218 | While every sweep begins with the marked clients as a suffix, whole runs of the code equal runs with the stable partition |
| `Sweep.IntendedNeverFaults` | src/server.cpp:199-218 | With the stable partition no run ever faults or holds a null slot |
| `Sweep.FaultIff` | src/server.cpp:199-218 | A run of the code is in order iff every sweep so far began with the marked clients as a suffix; otherwise it has faulted or is in the sweep that will |
| `Errors.ErrorPersists` | src/server.cpp:126-135 | Once `ec_` is set it stays set, no Connect or Data callback is made and no client or client socket is added, in every run without an end of stream at errno 0 in which each message, or each count of its sends, is below 2^32 - 1 bytes |
| `Errors.ErrorClearedIff` | src/connection.cpp:103-164 | A step that does not fault clears `ec_` iff it is a receive at the end of the stream while errno is 0, or a call one of whose sends is taken for failed while errno is 0 and followed by no failing one; the second takes a message and a count of 2^32 - 1 bytes or more |
| `Scenarios.ErrorsOutliveIff` | src/connection.cpp:105-112 | Messages of up to n bytes never clear an error, in any reachable state, iff n is below 2^32 - 1 |
| `Errors.StaleErrorRefuses` | src/server.cpp:126-135 | With an old error an accepted socket is closed again at once, nobody is added, and the id is given back |
| `Errors.StaleErrorDropsSender` | src/server.cpp:182-190 | With an old error data that did arrive is not delivered and its sender, alone, is marked |
| `Stopping.StopBoundsCallbacks` | src/server.cpp:101-116 | After `stop` at most one more Connect or Data callback is made, and none when the thread is in a handler or has not passed a test of `running_` |
| `Stopping.StopBoundsSweeps` | src/server.cpp:101-108 | After `stop` at most one more sweep begins |
| `Stopping.StopTerminates` | src/server.cpp:101-110 | After `stop` the thread takes a bounded number of its own steps, whatever callers do |
| `Stopping.ThreadCanMove` | src/server.cpp:101-218 | Once the acceptor is open the thread is never stuck: some answer of kernel or handler moves it on |
| `Stopping.EarlyStopIsLost` | src/server.cpp:84 | A stop made before the thread sets `running_` is overwritten by the thread's first step |
| `Stopping.StopIsObeyedIff` | src/server.cpp:32-35 | In any state of a server neither faulted nor destroyed, a stop leaves `running_` false for ever, in all continuations, iff the thread has set `running_` before |
| `Broadcasting.BroadcastEffect` | src/server.cpp:49-66 | In every reachable state a broadcast faults iff the vector holds a null slot; otherwise it sends once, in order, to each connected client not excluded, with the bytes handed over for each, marks exactly those after whose own send `ec_` is set, sets the flag iff it marks somebody, and changes nothing else |
| `Broadcasting.SentTo` | src/server.cpp:60-66 | A client is among those sent to exactly if it is connected and not the excluded one, and what is recorded for it is what its own send handed over |
| `Broadcasting.BroadcastMarksOn` | src/server.cpp:49-66 | If the message, or every count of its sends, is below 2^32 - 1 bytes, the clients marked are exactly the addressed ones from the first failing send on, or all of them behind an old error |
| `Scenarios.MarksFromFirstFailureIff` | src/server.cpp:54-57 | That rule holds for all broadcasts of n bytes iff n is below 2^32 - 1 |
| `Broadcasting.CodeClearedIff` | src/server.cpp:54-57 | An old error is gone after some turns of a broadcast iff one of the sends made reset it and no later one failed |
| `Broadcasting.EmptyBroadcastMarksAll` | src/connection.cpp:89-93 | Broadcasting an empty buffer marks every addressed client |
| `Scenarios.MarkSurvivesSweep` | src/server.cpp:199-218 | A client marked during a sweep that leaves it in place, by a disconnect handler for instance, is present and marked at the loop head after that sweep |
| `Scenarios.NextSweepRemoves` | src/server.cpp:199-218 | A client marked at any time, inside a sweep that leaves it in place or outside one, is removed and told so by the next sweep |
| `Scenarios.MarkedClientIsStillHeard` | src/server.cpp:179-193 | Delivery does not look at the mark: data of a client already marked is still passed on |
| `Scenarios.OneFailedSendEndsService` | src/server.cpp:54-57 | After one failing send, made from anywhere, nobody is admitted and nothing delivered in any continuation without an end of stream at errno 0 and with messages or counts below 2^32 - 1 bytes |
| `Scenarios.FaultIsReachable` | src/server.cpp:203-214 | A concrete run, two clients of which the first is removed, that faults |
| `Delivery.DeliveredIsPrefix` | src/server.cpp:179-194 | In every run, for every client, the bytes of its Data callbacks end to end are a prefix of what was taken off its stream, also after a fault |
| `Delivery.NothingLostWhileConnected` | src/server.cpp:182-193 | A client not marked, and at the loop head or when polling any client, has had every byte delivered that was taken off its stream |
| `Delivery.PassedOnIff` | src/server.cpp:182-193 | Data that has arrived is taken off the stream in any case, and passed on iff `ec_` is clear |
| `Delivery.LossIsExact` | src/server.cpp:182-193 | In every run the bytes taken from a client are the bytes delivered plus those dropped, and none is lost iff none of its data arrived while `ec_` was set |
| `Scenarios.LossIsReachable` | src/server.cpp:182-190 | A concrete run, a failed accept and then a byte from a client, in which the byte is taken and never delivered |
| `Delivery.DeliveredIsSent` | src/connection.cpp:137-174 | In every run the Data callbacks of a client are a prefix of what its own sends handed over at the far end, and of the buffers it sent if those sends succeeded |
| `Outgoing.HandedIsPrefix` | src/server.cpp:49-66 | In every run whose messages have at most 2^31 bytes or go out in counts that fit int, the bytes handed over for a client are a prefix of the messages sent to it end to end, and all of them while it is not marked |
| `Scenarios.SendsStayInOrderIff` | src/connection.cpp:103-114 | Messages of up to n bytes keep that true from every reachable state where it holds iff n is at most 2^31 (for sizes below 2^63) |
| `Wire.ToIntIsModular` | src/connection.cpp:105-106 | The conversion to int is the residue modulo 2^32 |
| `Wire.AddSizeIsModular` | src/connection.cpp:113 | The byte count is kept modulo 2^64 |
| `Wire.RunSendLoop` | src/connection.cpp:95-114 | The loop does what its recursive specification says, for every sequence of answers |
| `Wire.SendLoopExact` | src/connection.cpp:103-114 | For every buffer if the counts fit int, and up to 2^31 bytes in any case: what is handed over is a prefix; all of it means a normal return with `ec` untouched; less means a failed call whose errno is reported |
| `Wire.SendIsExact` | src/connection.cpp:103-114 | If the counts fit: with c the sum of the counts before the first failure, all of the data and success if c reaches its size, else exactly the first c bytes and the failure's errno, or a send still waiting |
| `Wire.SendRefused` | src/connection.cpp:90-93 | Without a connection or data nothing is handed over and error 1 is reported |
| `Wire.SendLoopEnds` | src/connection.cpp:104-114 | Under the same condition one answer per remaining byte is enough for the loop to end |
| `Wire.SendLoopCutsShort` | src/connection.cpp:105-113 | For every larger buffer one answer of 2^31 makes the loop report success after part of it |
| `Wire.SuccessIsCompleteIff` | src/connection.cpp:95-114 | A send without error has sent the whole buffer, for all answers, iff the buffer has at most 2^31 bytes (for sizes below 2^63, all that a vector of bytes can have) |
| `Wire.SuccessIsCompleteIfFits` | src/connection.cpp:95-114 | Under the same condition a send without error has sent the whole buffer |
| `Wire.SendsPrefixIff` | src/connection.cpp:104-113 | What is handed over is a prefix of a buffer of n bytes, for all answers, iff n is below 2^32 |
| `Wire.LargeSendRepeats` | src/connection.cpp:105-113 | For every larger buffer a count of 2^32 makes the loop send the same bytes again |
| `Wire.SendCodeIff` | src/connection.cpp:89-114 | If the buffer or every count is below 2^32 - 1 bytes, the code after a send is nonzero iff it was before or the send fails |
| `Wire.SendResetsIff` | src/connection.cpp:105-112 | A send clears an old error iff the loop ends at a count narrowed to -1 while errno is 0, which takes a count of 2^32 - 1 or more |
| `Wire.SendKeepsErrorIff` | src/connection.cpp:105-112 | A send of n bytes keeps an old error, for all answers, iff n is below 2^32 - 1 |
| `Wire.ReceivedIsPrefix` | src/connection.cpp:144-174 | For every way sends and receives are split, what receive returned is exactly the part of the stream taken so far, if every read or its count is below 2^31 bytes |
| `Wire.ReadsFaithfullyIff` | src/connection.cpp:156-173 | Reads of up to n bytes are always faithful iff n is below 2^31 |
| `Wire.StreamIsFaithful` | src/connection.cpp:89-115 | If moreover all sends succeed in counts that fit, what is received is a prefix of all buffers sent, and all of them once everything was taken |
| `Wire.PeeksAreHarmless` | src/connection.cpp:152-164 | If every peek or its count is below 2^32 bytes, leaving out all peeks changes neither the stream nor anything received, even if a peek meets the end of the stream |
| `Wire.PeeksHarmlesslyIff` | src/connection.cpp:152-164 | Peeks of up to n bytes never change what is received iff n is below 2^32 |
| `SocketOps.CreateConnectedSocket` | src/detail/socket_ops.cpp:38-50 | The socket of the first endpoint for which socket and connect both succeed; 0 iff none does (or the kernel gave 0); the kernel has opened a descriptor for each endpoint tried that got one, and closed none |
| `SocketOps.CreateListeningSocket` | src/detail/socket_ops.cpp:52-76 | The same for socket, setsockopt on request, bind and listen, all of which must succeed |
| `SocketOps.LeakedExactly` | src/detail/socket_ops.cpp:39-46 | A descriptor is open after a scan, was not before and is not the one returned, iff an endpoint given up got it from socket |
| `Connections.Connection.constructor` | src/connection.cpp:11 | A new connection holds no socket |
| `Connections.Connection.FromNativeSocket` | src/connection.cpp:13-20 | The connection takes over the given socket |
| `Connections.Connection.Disconnect` | src/connection.cpp:71-79 | A held socket is closed and forgotten; without one nothing happens |
| `Connections.Connection.MoveFrom` | src/connection.cpp:30-40 | The socket moves and the source forgets it; a socket the target held is owned by nobody afterwards unless it was the source's |
| `Connections.Connection.Connect` | src/connection.cpp:50-69 | The first endpoint that connects is held and `ec` left alone; otherwise the connection is unchanged and 1 or errno reported; exactly the descriptors of the endpoints given up stay open without an owner |
| `Connections.Connection.Send` | src/connection.cpp:89-115 | The bytes the loop hands over go out on this descriptor and no other, with the loop's error code |
| `Connections.Connection.Receive` | src/connection.cpp:144-174 | What is returned, consumed, reported, closed or thrown for every count, after narrowing; below 2^31 bytes exactly what arrived is returned |
| `Connections.Acceptor.constructor` | src/acceptor.cpp:13 | A new acceptor is closed |
| `Connections.Acceptor.Open` | src/acceptor.cpp:27-47 | The first endpoint that can be listened on is held; otherwise error 1 or 32 and no change; the same descriptors stay open without an owner |
| `Connections.Acceptor.Close` | src/acceptor.cpp:49-56 | A held socket is closed and forgotten |
| `Connections.Acceptor.Accept` | src/acceptor.cpp:78-98 | A new connection owns the accepted socket and `ec` is left as it was; otherwise an error and a connection without socket |
| `Connections.AcceptedSocketLife` | src/server.cpp:126-138 | Through accept, move, temporary, sweep and destructor one accepted socket is opened once and closed once |
| `Servers.Server.constructor` | src/server.cpp:11-15 | A new server is the initial state |
| `Servers.Server.ClientFromId` | src/server.cpp:225-231 | The search loop returns the first match, a miss, or the dereference of a null slot before either |
| `Servers.Server.ClientFromSocket` | src/server.cpp:238-244 | The same by descriptor |
| `Servers.Server.Mark` | src/server.cpp:68-80 | Marks the client found and sets the flag; everything else stays |
| `Servers.Server.SendOn` | src/connection.cpp:89-115 | The server's send runs the send loop on the kernel's answers, leaves its code in `ec_` and records what was handed over |
| `Servers.Server.SendTo` | src/server.cpp:49-58 | Sends to a connected client and marks it if `ec_` is set afterwards |
| `Servers.Server.SendToAll` | src/server.cpp:60-66 | The loop is the broadcast that `Broadcasting.BroadcastEffect` is about |
| `Servers.Server.Perform` | src/server.cpp:32-80 | Each public call is one step of the transition system and does what the reference describes |
| `Servers.Server.Outside` | src/server.cpp:32-80 | Any number of any calls, as made by a handler, and of anything the far ends do, keeps the object a run and only marks clients |
| `Servers.Server.Admit` | src/server.cpp:137-144 | The new client is appended to vector and poll group and announced; the whole new state is the described one |
| `Servers.Server.AcceptFails` | src/server.cpp:126-134 | A failed accept stores its errno, gives the id back and changes nothing else |
| `Servers.Server.AcceptOne` | src/server.cpp:126-145 | Whatever accept answers is what the step is about: a descriptor refused or admitted, or a failure |
| `Servers.Server.Refuse` | src/server.cpp:126-135 | The whole new state after a connection accepted behind an old error: it is closed, the id given back; clients and callbacks stay |
| `Servers.Server.AcceptTurn` | src/server.cpp:116-145 | One turn of the accept loop is a run; it stops only for `running_`, no pending connection, or a crash |
| `Servers.Server.HandleIncomingConnections` | src/server.cpp:115-145 | For all kernel answers and calls the accept phase is a run of the transition system |
| `Servers.Server.Deliver` | src/server.cpp:192-193 | Data is passed on with the id of the client it came from; the whole new state is the described one |
| `Servers.Server.ReceiveNothing` | src/server.cpp:182-190 | End of stream, error, or data behind an old error: the whole new state is the described one, client marked |
| `Servers.Server.HandleFound` | src/server.cpp:171-194 | An error or hang-up marks its client; an event with neither input nor error changes nothing; otherwise what recv answers is what is handled |
| `Servers.Server.DropBroken` | src/server.cpp:171-177 | An error or hang-up marks exactly its client |
| `Servers.Server.PollClients` | src/server.cpp:157 | The poll phase stores and reports exactly the kernel's answer |
| `Servers.Server.HandleEvent` | src/server.cpp:159-194 | Each event is handled by the branch the transition system prescribes, and the loop goes on to the next |
| `Servers.Server.ReadTurn` | src/server.cpp:159-195 | The event loop ends only for `running_`, the end of the events, or a crash |
| `Servers.Server.HandleIncomingMessages` | src/server.cpp:156-196 | For all kernel answers and calls the read phase is a run of the transition system |
| `Servers.Server.RemoveMarked` | src/server.cpp:203-204 | The vector after `remove_if`, the boundary, and the clients destroyed |
| `Servers.Server.HandleDisconnectedClients` | src/server.cpp:199-218 | Crashes iff the flag is set and the marked clients are not a suffix; otherwise removes exactly the marked clients as `Sweep.SweepEffect` says, whatever the handlers do |
| `Servers.Server.NetworkThread` | src/server.cpp:83-112 | After any number of turns the callback protocol and the ids are in order and each client's Data callbacks are a prefix of what it sent; at the loop head vector and poll group agree and counts balance; on exit the acceptor is closed; without calls from outside it does not exit |
| `Servers.Server.TearDown` | src/server.cpp:17-22 | Destroying the server closes the remaining client sockets and leaves nothing open |

## Left out

- `src/client.cpp`: its loop starts from an uninitialised `running_`, so what it does is not settled by the code; it would repeat the connection properties.
- Name resolution (`src/resolve.cpp`, `src/detail/getaddrinfo.cpp`): endpoint lists are arbitrary inputs.
- Endpoint formatting, comparison and sockaddr casts: endpoints are opaque values.
- `buffer` beyond a byte sequence, including its `operator==`.
- Logging, the 10 ms sleep, the two `std::exit` paths at start-up, and creating and joining the thread (a second `run` is not modelled).
- The throwing overloads of connect, send, receive, open and accept, which delegate to the modelled ones; translation of send flags; `has_data_available`.
- Data races on unsynchronised fields: calls from other threads are atomic steps between steps of the thread, and `running_` is a sequentially consistent flag.
- Copying of the vector during `remove_if`: `Servers.Server` keeps `clients_` as a sequence and hands an array copy to the in-place algorithm; client records are held by value, since `unique_ptr` owns them uniquely.
- The order in which `std::remove_if` moves elements follows the usual find-then-move implementation; the C++ standard leaves the tail's contents unspecified beyond "moved from".
- Descriptor 0 is taken to be in use throughout, so the kernel hands out positive descriptors to the server; `SocketOps` does not assume it.
- Fewer than 2^64 ids and one server per process, as the id counter is a file static.
- A send that never returns, because the kernel stops answering or because its count stays 0 after narrowing: a call of the server is a step once its sends have returned.
- Sockets leaked while opening the acceptor count as belonging to the rest of the process.
- Servers.Server.NetworkThread: follows the thread for a finite number of turns, with the acceptor already resolved and opened, because a loop without end has no final state; `Preservation.ReachableInv` covers every length.
- Servers.Server.HandleIncomingConnections: the kernel reports pending connections only finitely often in one phase, since the source's loop has no bound of its own.
- Servers.Server: descriptors of the rest of the process do not change while its methods run; the transition system lets them change at any step.
