# Verified model of the antd tunnel publishers

A Dafny model of four single-threaded programs that share one framed protocol, with proofs about them:

- **Tunnel framing** (`tunnel.c`): the transfer loops, `msg_read` and `msg_write` over a descriptor that moves any
  number of bytes a call, or fails. `TunnelCodec` is the frame format, `TunnelSchedule` says what the loops and the two
  calls come to under a schedule of kernel replies, `TunnelIo` holds the imperative code and proves it equal to that,
  `TunnelProperties` has the theorems.
- **Broadcast group server** (`broadcast/broadcast.c`): `BroadcastServer` is the table of client ids, the
  reference-counted handles shared by all sessions of a user, and the message buffer. `BroadcastModel` is the plain
  relation it refines: session -> user and user -> groups (`Next` is the state change of a request, `Emits` what may be
  sent). `NoticeCodec` is the payload format and `Delivery` one message for several clients. `BroadcastAnswers` says for
  each request, from its bytes, what it changes and what is sent; `BroadcastProperties` has what sessions can rely on,
  and `EndToEnd` carries the main result over the tunnel.
- **Service runner** (`runner.c`): `RunnerAccumulator` is the string arena with its two pointer vectors;
  `RunnerCommands`, `RunnerMeaning` and `RunnerProperties` say which commands a configuration stands for, what they are
  made of, and when the runner launches them; `RunnerSupervisor` is the monitoring loop and the kill loop over `waitpid`.
- **Camera publisher** (`v4l2cam/v4l2cam.c`): `Camera` is the `queued` flag against the driver's buffer, and the
  settings each client was told against the settings in force.

`Bytes` has network byte order, C strings, and `Lists(order, set)`: a tree walk visits every key once, in an order that
is not known.

## Results that are not what one would expect

- `msg_read` does not only accept frames. If the read of the size field fails and the field's memory reads as zero, the
  failure passes for an empty payload and `msg_read` goes on to the end magic (`tunnel.c:107-111` and `248-252`).
  `SlipExists` is such a stream. `CanonicalIffSizeFieldArmed` gives the exact condition over all streams and all read
  errors: the last byte of the caller's `header.size`, in memory order, must not be zero when the call starts. Without a
  read error (`FaultlessIsCanonical`) everything accepted is a frame, whatever the header held, also when the stream
  ends inside the size field.
- Sections are not isolated in the runner. A section that names no executable is not launched, but what it stored stays
  in the vectors. `SectionIsolation` gives the exact condition under which every section that names one is launched as
  its own command, whatever is inherited: a section without an executable has no variables, and no more parameters than
  the next section that has one (`NoSpill`); fewer parameters are overwritten and do not show. `SectionWithoutExecLeaks`
  is a configuration where it fails. The number of launches is the number of sections if and only if every section
  names an executable, and then they are the commands of the sections, in order (`GroupBy`).

## Assumptions

- The search trees of the antd library are finite maps. `simple_hash` is any function from names to 32-bit group ids,
  so different group names may share an id. A user or group name is what C string functions see of it: it ends at the
  first NUL.
- `BUFFLEN` is at least 514. Data messages have at least 4 bytes and leave and user-query messages at least 5
  (`Admissible`): the server reads that many bytes without looking at the size.
- An UNSUBSCRIBE of an unknown id lies outside the model: `broadcast/broadcast.c:122` reads through the null node before
  line 124 tests it. The model lets the request pass without effect, which is what the test is there for.
- `malloc` refuses blocks of 2^31 bytes or more (`Limit`), so a size never turns negative as an `int`.
- The broadcast server's writes succeed. The camera's may fail, and a failed write delivers nothing.
- `fork` succeeds and no pid is given out twice. Section names, executables and parameters are
  shorter than 255 (`Copyable`); other entries may have any length and are cut to their slot.

## Model

| member | source | states |
|---|---|---|
| Bytes.U16RoundTrip | tunnel.c:75-75 | ntohs undoes htons on the wire, in both directions |
| Bytes.U32RoundTrip | tunnel.c:112-112 | ntohl undoes htonl on the wire, in both directions |
| Bytes.NetworkOrder16 | tunnel.c:75-75 | two bytes spell the number with the most significant byte first, when written and when read |
| Bytes.NetworkOrder32 | tunnel.c:112-112 | four bytes spell the number with the most significant byte first, when written and when read |
| Bytes.CString | broadcast/broadcast.c:327-328 | a stored name is the received bytes up to the first NUL and contains none |
| TunnelCodec.FrameBytes | tunnel.c:265-319 | a frame byte by byte: 0x41 0x4e, type, channel, client and size in network order, payload, 0x54 0x44 |
| TunnelCodec.PrefixFree | tunnel.c:265-319 | two streams that start with frames and are equal have equal first messages and equal rests: encoding is injective and prefix-free |
| TunnelCodec.StreamInjective | tunnel.c:265-319 | a stream of frames determines its list of messages |
| TunnelSchedule.Drive | tunnel.c:19-65 | both transfer loops move at most what was asked and what is there, and succeed exactly when everything was moved |
| TunnelSchedule.DriveFaultless | tunnel.c:19-65 | without faults a loop moves the smaller of what was asked and what is there, under every chunking |
| TunnelSchedule.AnyAnswer | tunnel.c:27-36 | the schedules give read and write every answer from -1 to what was asked and is there, and no other |
| TunnelIo.Descriptor.Read | tunnel.c:27-27 | read under a schedule: which bytes reach the buffer, and that the rest of it is untouched |
| TunnelIo.Descriptor.Write | tunnel.c:51-51 | write under a schedule: which bytes reach the wire |
| TunnelIo.GuardRead | tunnel.c:19-41 | the loop ends as Drive says; exactly the bytes moved are in the buffer, also on failure |
| TunnelIo.GuardWrite | tunnel.c:43-65 | the loop ends as Drive says and the wire has grown by exactly the bytes moved |
| TunnelIo.CheckNumber | tunnel.c:67-82 | succeeds exactly when two bytes arrive and spell the number |
| TunnelIo.ReadPayload | tunnel.c:104-131 | payload, size memory and stream are those of ReceivePayload, including the stale tail of a cut size field |
| TunnelIo.ReadHeader | tunnel.c:219-247 | the stream is that of the parser, which accepts exactly when this returns 0; the fields are then those of the header |
| TunnelIo.MsgRead | tunnel.c:219-263 | msg_read leaves stream and schedule as Receive says and the size memory as SizeAfter says, accepted or not; an accepted message is in the struct |
| TunnelIo.MsgWrite | tunnel.c:265-319 | returns 0 exactly when the whole frame is on the wire; on -1 a strict prefix of it is |
| TunnelProperties.SendIsEncode | tunnel.c:265-319 | msg_write under any schedule: success if and only if the wire is the frame, else a strict prefix; never fails without a fault |
| TunnelProperties.ReceiveComplete | tunnel.c:219-263 | msg_read returns the message at the head of the stream and consumes exactly its frame, for every splitting |
| TunnelProperties.CanonicalIffNoSlip | tunnel.c:219-263 | for each call that accepts: what it consumed is the encoding of what it returned if and only if no failed size field read as zero |
| TunnelProperties.FaultlessIsCanonical | tunnel.c:219-263 | without read errors, accepted bytes are exactly the encoding of the message, whatever the header held before |
| TunnelProperties.AcceptedIff | tunnel.c:219-263 | without read errors a frame is accepted if and only if its type is at most 7 and its payload can be allocated |
| TunnelProperties.SlipExists | tunnel.c:104-111 | a concrete stream and schedule on which msg_read accepts what is not a frame |
| TunnelProperties.CanonicalIffSizeFieldArmed | tunnel.c:248-252 | over all streams and read errors msg_read accepts only frames if and only if the last byte of the stale size field is not zero |
| TunnelProperties.TruncationRejected | tunnel.c:219-263 | without read errors a stream that ends inside a frame is rejected, also inside the size field and with any stale header |
| TunnelProperties.TruncationRejectedArmed | tunnel.c:219-263 | under every schedule, read errors included, it is rejected if the last byte of the stale size field is not zero |
| TunnelSchedule.SizeAfter | tunnel.c:107-115 | after an accepted message the size memory holds the length of its payload |
| TunnelProperties.StreamRoundTrip | tunnel.c:219-319 | written messages are read back as the same list, consuming exactly those bytes, for every write schedule that succeeds and every read splitting |
| NoticeCodec.NoticeRoundTrip | broadcast/broadcast.c:87-98 | join and leave notices take at most 514 bytes and decode to the user, group id and group name they were built from |
| NoticeCodec.AnswerRoundTrip | broadcast/broadcast.c:155-194 | query answers fit the buffer and decode to the group id and name they were built from |
| NoticeCodec.NoticeLayout | broadcast/broadcast.c:396-405 | where code, user name size, user name, group id in network order and group name sit in a notice |
| NoticeCodec.AnswerLayout | broadcast/broadcast.c:155-194 | where code, group id in network order and name sit in an answer |
| BroadcastModel.NextWellFormed | broadcast/broadcast.c:309-481 | every request keeps the index: users are those with sessions, and a group id is the hash of its stored name |
| BroadcastModel.After | broadcast/broadcast.c:286-488 | every reachable state is well formed |
| BroadcastServer.Server.constructor | broadcast/broadcast.c:60-61 | the server starts with an empty table, which stands for the empty relation |
| BroadcastServer.Server.PutNotice | broadcast/broadcast.c:396-405 | the buffer up to the returned size is the notice |
| BroadcastServer.Server.FindHandle | broadcast/broadcast.c:70-86 | finds the one live handle of a user, or knows that the user has none, whatever the order of the walk |
| BroadcastServer.Server.Notify | broadcast/broadcast.c:201-223 | one copy to each session whose user is in the group, and to no other |
| BroadcastServer.Server.SendUser | broadcast/broadcast.c:176-200 | answers exactly for the sessions whose user is in the group |
| BroadcastServer.Server.SendUsers | broadcast/broadcast.c:414-432 | the user query is answered with one message per member session |
| BroadcastServer.Server.SendGroups | broadcast/broadcast.c:155-175 | the group query is answered with one message per group of the user |
| BroadcastServer.Server.Subscribe | broadcast/broadcast.c:311-347 | a new session gets the handle with the name in the payload, any other SUBSCRIBE changes no entry; refines the plain step, sends nothing, frees nothing, and creates a handle only if needed |
| BroadcastServer.Server.CountedWithSession | broadcast/broadcast.c:332-343 | reference counts equal session counts after an insertion |
| BroadcastServer.Server.CountedWithoutSession | broadcast/broadcast.c:128-145 | after a departure no entry points to the freed handle and all counts are right |
| BroadcastServer.Server.LastSessionByRef | broadcast/broadcast.c:138-138 | a reference count of one before the decrement means exactly the user's last session |
| BroadcastServer.Server.LeaveGroup | broadcast/broadcast.c:87-107 | the notices of one group go to its sessions, and the user part of the buffer is kept for the next group |
| BroadcastServer.Server.LeaveGroups | broadcast/broadcast.c:141-141 | one leave notice per pair of group and session |
| BroadcastServer.Server.SayFarewell | broadcast/broadcast.c:129-153 | the notices only with the last reference, then one UNSUBSCRIBE |
| BroadcastServer.Server.Unsubscribe | broadcast/broadcast.c:469-475 | refines the plain step with equal output; the handle is released exactly with its last session |
| BroadcastServer.Server.SetGroups | broadcast/broadcast.c:382-409 | changing the groups of a shared handle changes the groups of its user and nothing else |
| BroadcastServer.Server.Join | broadcast/broadcast.c:375-406 | refines the plain step with equal output: join, then notify |
| BroadcastServer.Server.Leave | broadcast/broadcast.c:390-411 | refines the plain step with equal output: notify, then leave |
| BroadcastServer.Server.QueryUsers | broadcast/broadcast.c:414-432 | refines the plain step with equal output; a non-member gets one error |
| BroadcastServer.Server.QueryGroups | broadcast/broadcast.c:433-441 | refines the plain step with equal output |
| BroadcastServer.Server.Control | broadcast/broadcast.c:348-456 | refines the plain step with equal output, error branches included |
| BroadcastServer.Server.Data | broadcast/broadcast.c:457-468 | one copy to each session in the group whose id the first four payload bytes spell; refines the plain step and changes nothing |
| BroadcastServer.Server.Process | broadcast/broadcast.c:309-481 | the shared handles simulate the plain relation step for step with equal outputs; handles are created and released exactly as counted |
| BroadcastServer.Server.Serve | broadcast/broadcast.c:286-488 | the message loop, for any requests, is a run of the plain relation with the same messages |
| BroadcastAnswers.AdmissibleMeaning | broadcast/broadcast.c:393-394 | what is assumed of a request: four bytes where the server reads a group id |
| BroadcastAnswers.SubscribeAnswer | broadcast/broadcast.c:311-347 | SUBSCRIBE stores the session under the name in the payload, and a user that is new starts without groups; nothing is sent |
| BroadcastAnswers.NoAnswer | broadcast/broadcast.c:317-325 | a SUBSCRIBE with too long a name or from a known session, and unknown message types, change and send nothing |
| BroadcastAnswers.JoinAnswer | broadcast/broadcast.c:375-406 | a join puts the user into the group whose id is the hash of the name in the payload, under that name if it is new; each session then in the group gets exactly one notice of it and nothing else is sent |
| BroadcastAnswers.LeaveAnswer | broadcast/broadcast.c:390-411 | a leave removes exactly the group spelled in the payload from the user, after exactly one notice to each session in it |
| BroadcastAnswers.UserQueryAnswer | broadcast/broadcast.c:414-432 | the requester alone is sent, for each user name, as many answers as that user has sessions in the group |
| BroadcastAnswers.GroupQueryAnswer | broadcast/broadcast.c:433-441 | the requester alone is sent one answer for each of its groups |
| BroadcastAnswers.ErrorAnswer | broadcast/broadcast.c:416-456 | bad size, unknown sender, unknown code and a user query by a non-member: one message of type 1 to the sender, and no change |
| BroadcastAnswers.DataAnswer | broadcast/broadcast.c:457-468 | a data message goes once, unchanged but for the client id, to each session in the group its first four bytes spell, and to nobody else |
| BroadcastAnswers.SessionEnds | broadcast/broadcast.c:146-154 | a disconnect while the user has another session removes the session only and sends one UNSUBSCRIBE |
| BroadcastAnswers.UserEnds | broadcast/broadcast.c:116-154 | a disconnect of the only session removes the user; one leave notice per group and session in it, then one UNSUBSCRIBE, and nothing else |
| BroadcastAnswers.AfterMeaning | broadcast/broadcast.c:286-488 | the state after a sequence of requests is reached one request at a time |
| BroadcastAnswers.RunMeaning | broadcast/broadcast.c:286-488 | in a run every request is answered in the state that the requests before it left behind |
| BroadcastAnswers.StaysInMeaning | broadcast/broadcast.c:201-223 | the condition of the replay results: before the first request and after each, the session's user is in the group |
| BroadcastProperties.QueryGivesRoster | broadcast/broadcast.c:414-432 | folding in the answers of a user query gives exactly the users in the group |
| BroadcastProperties.JoinKeepsView | broadcast/broadcast.c:375-406 | a member's view follows every join, repeated ones included |
| BroadcastProperties.LeaveKeepsView | broadcast/broadcast.c:390-411 | a member's view follows every leave, those of non-members included |
| BroadcastProperties.DisconnectKeepsView | broadcast/broadcast.c:116-154 | a member's view follows disconnects, of last sessions and of others |
| BroadcastProperties.StepKeepsView | broadcast/broadcast.c:309-481 | no request of anyone makes a member's view differ from the roster |
| BroadcastProperties.RosterReplay | broadcast/broadcast.c:286-488 | over every run, query answers and notices folded in give exactly the roster, as long as the session stays in the group |
| BroadcastProperties.DataDelivery | broadcast/broadcast.c:457-468 | a data message whose payload starts with group id g occurs exactly once per member session of g, only the client id replaced, and never for others; the state is unchanged |
| BroadcastProperties.LastSessionDeparture | broadcast/broadcast.c:116-154 | exactly one leave notice per pair of the user's groups and their sessions, the departing one included, then one UNSUBSCRIBE; other users keep their groups |
| BroadcastProperties.SharedMembership | broadcast/broadcast.c:311-347 | sessions that come or go while the user keeps one change no group |
| BroadcastProperties.SubscribeUndone | broadcast/broadcast.c:469-475 | connecting and disconnecting again restores the state |
| BroadcastProperties.LeaveUndoesJoin | broadcast/broadcast.c:375-411 | a leave restores the state before the join if and only if the user was not in the group |
| BroadcastProperties.GroupQuerySound | broadcast/broadcast.c:433-441 | each group of the user is listed once, under the name whose hash it is |
| BroadcastProperties.UserQuerySound | broadcast/broadcast.c:414-432 | one answer per member session, to the requester, and the names are exactly the roster |
| EndToEnd.EmittedKinds | broadcast/broadcast.c:309-481 | everything the server sends has a type msg_read accepts |
| EndToEnd.RosterOverTheWire | broadcast/broadcast.c:286-488 | the roster replay survives msg_write and msg_read under any splitting of the stream |
| RunnerCommands.EnvEntry | runner.c:96-96 | an entry is the text name=value, or its first 254 characters if that is longer |
| RunnerMeaning.ParamsMeaning | runner.c:87-93 | the parameters of a section are the values of its param events, in order |
| RunnerMeaning.EntriesMeaning | runner.c:94-100 | the variables of a section are name=value, cut to 254, for all its other events, exec included, in order |
| RunnerMeaning.LastExecMeaning | runner.c:81-86 | the executable of a section is the value of the exec event with no exec event after it; it has none if there is no exec event |
| RunnerMeaning.CommandMeaning | runner.c:37-61 | the command of a section: executable and parameters as argv; its own variables, then the runner's environment, 64 at most together |
| RunnerMeaning.LaunchMeaning | runner.c:41-50 | what execve gets from whatever has been collected: all of argv; the own variables, then the inherited ones as far as 64 go |
| RunnerMeaning.RunsMeaning | runner.c:70-80 | the sections put together are the configuration; each has one name, and neighbours have different ones |
| RunnerMeaning.OwnCommandsMeaning | runner.c:70-75 | the own commands are those of the sections with an executable, in order |
| RunnerMeaning.SlotsMeaning | runner.c:76-100 | a section takes one string slot for its name, one for each event and one more for each exec |
| RunnerMeaning.RunFitsMeaning | runner.c:67-69 | the sizes: 127 slots, 63 parameters, 64 other entries, and strings of at most 254 characters where they are copied whole |
| RunnerProperties.GatherRun | runner.c:63-102 | feeding a section launches what was pending and nothing else, and gathers its last executable, its parameters over those left behind, and its entries behind those left behind |
| RunnerProperties.SectionIsolation | runner.c:63-130 | the launches are exactly the commands of the sections that name an executable, for every inherited environment, if and only if no section without one spills into the next that has one |
| RunnerProperties.NoSpillFront | runner.c:70-79 | the condition on pairs of sections agrees with what the runner carries along from section to section |
| RunnerProperties.OwnIfNoSpill | runner.c:63-130 | from any carried state: nothing showing means every launch is the section's own command |
| RunnerProperties.NoSpillIfOwn | runner.c:63-130 | from any carried state: with nothing inherited, every spill shows in a launch |
| RunnerProperties.GroupBy | runner.c:63-130 | as many launches as sections if and only if every section names an executable; then they are the commands of the sections, in order |
| RunnerProperties.EverySectionLaunched | runner.c:63-130 | sections that name an executable and respect the sizes are launched one each, in order, without an ASSERT or an overrun |
| RunnerProperties.SectionWithoutExecLeaks | runner.c:70-80 | a concrete configuration in which a parameter ends up in the next section's command |
| RunnerProperties.SectionsFit | runner.c:67-69 | sections that name an executable, of at most 127 slots, 63 parameters and 64 other entries, never trip an ASSERT nor overrun an array |
| RunnerAccumulator.NameStored | runner.c:76-79 | storing a section name keeps the representation and gives it a slot of its own |
| RunnerAccumulator.ExecStored | runner.c:83-85 | storing an executable keeps the representation and gives it a slot of its own |
| RunnerAccumulator.ParamStored | runner.c:89-92 | storing a parameter keeps the representation, separation and termination of the vectors |
| RunnerAccumulator.EnvStored | runner.c:96-99 | storing an entry keeps the representation, separation and termination of the vectors |
| RunnerAccumulator.Runner.ReadVector | runner.c:50-50 | the child reads a vector up to its NULL and finds every string as it was stored |
| RunnerAccumulator.Runner.AddInherited | runner.c:41-44 | the first inherited variables follow the own ones, as many as fit into 64 entries, and the vector stays terminated |
| RunnerAccumulator.Runner.ExecuteCommand | runner.c:37-61 | launches the accumulated command with its full argv and environment and starts over |
| RunnerAccumulator.Runner.Tests | runner.c:70-72 | the NULL and string comparisons decide exactly a new section and a pending command |
| RunnerAccumulator.Runner.IniHandle | runner.c:63-102 | one callback: new accumulator and launches are those of the specification |
| RunnerAccumulator.Runner.Load | runner.c:124-130 | parsing a whole configuration and flushing launches exactly the specified commands |
| RunnerAccumulator.LaunchServices | runner.c:124-130 | from start to flush: one command per section, in order, for every configuration that respects the sizes |
| RunnerSupervisor.Kernel.WaitNoHang | runner.c:138-138 | waitpid with WNOHANG, for a pid and for any child |
| RunnerSupervisor.Kernel.Kill | runner.c:158-158 | kill fails exactly for a pid without an unreaped child |
| RunnerSupervisor.Supervisor.constructor | runner.c:59-59 | the list of launched pids tracks every child |
| RunnerSupervisor.Supervisor.EntryGivenUp | runner.c:139-144 | overwriting the polled entry never loses an unreaped child, whichever child was reaped |
| RunnerSupervisor.Supervisor.NothingLeft | runner.c:133-133 | when no entry names an unreaped child, every child is reaped |
| RunnerSupervisor.OneMoreRound | runner.c:131-152 | a pass over all entries followed by a nap is one more round of the loop |
| RunnerSupervisor.Supervisor.Pass | runner.c:135-149 | polls each entry once, as it stands, and kills nobody; counts nothing only if every child is reaped and every entry is -1; counts nothing if no child was running at the start |
| RunnerSupervisor.Supervisor.Monitor | runner.c:131-152 | rounds of polling every entry and then napping, until every child is reaped or the signal comes |
| RunnerSupervisor.Supervisor.KillRemaining | runner.c:153-167 | kills only unreaped children that are still on the list; afterwards every child is reaped |
| RunnerSupervisor.Supervisor.Supervise | runner.c:131-168 | whatever exits when and whenever the signal comes, no child is left running or unreaped; nobody is killed unless the signal came |
| Camera.SettingsRoundTrip | v4l2cam/v4l2cam.c:554-562 | settings payloads decode to the settings, and a request decodes and encodes to itself |
| Camera.SettingsLayout | v4l2cam/v4l2cam.c:573-586 | the six bytes of settings, told or requested: width and height in network order, frames per second, quality |
| Camera.InForceMeaning | v4l2cam/v4l2cam.c:573-586 | the settings in force are those of the last CTRL message of six bytes; no other message sets any |
| Camera.SubscribedMeaning | v4l2cam/v4l2cam.c:546-572 | a client is one if the last SUBSCRIBE or UNSUBSCRIBE it sent was a SUBSCRIBE |
| Camera.AttemptedMeaning | v4l2cam/v4l2cam.c:241-251 | each client gets exactly one attempt, nobody else gets any, and only the client id differs |
| Camera.LastCtrlAfter | v4l2cam/v4l2cam.c:241-251 | a delivery replaces the last control payload of exactly the sessions it reaches |
| Camera.Publisher.Start | v4l2cam/v4l2cam.c:447-500 | the loop is entered exactly when the channel is granted and no driver call fails; without a connection the device is closed again |
| Camera.Publisher.Cleanup | v4l2cam/v4l2cam.c:293-325 | fails only when a driver call does; flag and driver agree also then; success leaves nothing queued, mapped or open |
| Camera.Publisher.ApplySetting | v4l2cam/v4l2cam.c:359-396 | fails only when a driver call does; flag and driver agree also then; the buffer is never unmapped or closed while queued |
| Camera.Publisher.SendAll | v4l2cam/v4l2cam.c:272-272 | exactly one attempt per client |
| Camera.Publisher.SendFrame | v4l2cam/v4l2cam.c:252-281 | a queued frame is attempted once per client and the buffer is dequeued only while queued |
| Camera.Publisher.Subscribe | v4l2cam/v4l2cam.c:546-567 | the new client is told the settings in force, or the loop stops |
| Camera.Publisher.Reconfigure | v4l2cam/v4l2cam.c:573-628 | new settings are told to every client, or a driver call failed and the loop stops |
| Camera.Publisher.TellEveryone | v4l2cam/v4l2cam.c:608-620 | afterwards every client reached was last told the settings in force |
| Camera.Publisher.Turn | v4l2cam/v4l2cam.c:501-665 | one turn keeps buffer discipline and settings coherence; what is sent, whether the buffer is queued afterwards, and that the loop stops only after a failure |
| Camera.Publisher.Loop | v4l2cam/v4l2cam.c:501-665 | over every run, while it runs, each client's last settings message decodes to the settings of the last request |
| Camera.Publisher.Run | v4l2cam/v4l2cam.c:501-667 | flag and driver agree to the end, whatever fails; a successful cleanup leaves nothing queued, mapped or open |

## Left out

- `open_socket` and what it calls, `msg_read_string`, logging and signal set-up: wrappers of the system, or unused.
- The trees, lists, INI parser and hash of the antd library: finite maps, sequences, an event stream, any function.
- Text and channel of `BC_ERROR` messages, and the buffer they are formatted in: only type and recipient are modelled.
- The channel id of the messages that `unsubscribe` builds: it is never set, so any value is allowed.
- The walk over all clients when the broadcast server shuts down, and its CHANNEL_OPEN and CHANNEL_CLOSE handshakes.
- Failing writes of the broadcast server: they are only logged.
- ASSERT failures and array overruns of the runner: `Fits` is the condition under which neither happens, and the
  theorems are about configurations that fit. `fork` failing is not modelled.
- A `waitpid` that is interrupted, and children that were not launched from the list.
- RunnerSupervisor.Supervisor.Monitor: the signal comes after at most `patience` passes, for any number; runs that
  never end are not modelled.
- JPEG compression, the mapped memory itself, timers and the frame rate of the camera, and the messages it sends after
  the loop.
- TunnelIo.ReadHeader: what a rejected header leaves in the fields; no other member of the model depends on it.
- Camera.Publisher.Start: how opening the channel ends is a parameter; the messages exchanged are not modelled.
- TunnelIo.MsgRead: what a rejected message leaves in the fields other than the size. The host is big-endian, so ntohl
  leaves the bytes of the size field in place; on another host "last byte" still means the byte at the highest address.
- `vterm`, `wfifo` and `syslog`: process and file plumbing around the same framing.
