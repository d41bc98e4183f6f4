# NSF in Dafny

NSF is an event-driven TCP/IP stack for MVS 3.8j. One executive task runs to completion; subtasks, exits
and client address spaces hand work to it through ECBs, compare-and-swap and flags with one writer each.
This project models six of its parts and proves what they are for.

**The CTCI driver** (`CtciMachine` to `CtciDevice`, with the block codec in `Codec`). Four agents share
unlocked flags: the executive's pass, the read subtask, the write subtask and the channel. Every flag
write, ECB clear or post and EXCP is one atomic step of a transition system, and the theorems are about
every interleaving, including a stop request at any point: a READ and a WRITE never share the channel, no
halt is misaimed, nothing stalls, every block is decoded once and every packet is sent once and in order,
every buffer is in one place: the ones handed to `dev_send` (`CtciHandoff`) and the ones the decode
allocates, from the pool to an event, its handler or back (`CtciInbound`). `CtciWire` says in octets and
numbers which packets reach the wire, and as what. `CtciDevice` is the callback code
as written, over the device's fields, tied to the transition system by a coupling invariant.

**The cross-address-space slot pool** (`SlotRules` to `SlotProbe`, and the three-hop copy in `Crossing`).
Clients claim by compare-and-swap, publish last and release by a plain store; the server dispatches,
holds or reaps in two moves, stops, and is followed by an instance that adopts the pool. Taking the pool
over is a step like any other, so a run goes through any number of stops and adoptions. The decision
functions are used directly inside the transition relation. `SlotTheorems` says what holds on sound runs,
`SlotService` what a client gets, from the call to its result, `SlotCount` what the in-flight count is worth,
and `SlotLoss` what is lost where a run is not sound.

**Requests, sockets and SELECT** (`Sockets` to `SocketLayer`, `SelectAborts`, `Selects`, `SocketVerbs`, the client
facade in `Masks`, `Facade` and `SocketNumbers`).
Protocol operations are an abstract contract: an operation completes its request, parks it or refuses it.
Every request is completed once, every descriptor resolves only to its own socket, and what SELECT answers is
what was ready in the state it was answered in, down to the bits of the caller's masks. `SocketVerbs` says what
each verb does at its dispatch, over every run, without the handlers' own functions.

**The packet path** (`Chains`, `Pbufs`, `Buffers`, `Checksum`, `IpPackets`, `Routes`, `IpLayer`,
`IcmpPackets`, `IcmpLayer`). Buffer chains on the heap refine octet strings, the checksum loop refines the
word sum whatever the buffer boundaries, IP output followed by IP input is the identity on payloads, and
`IcmpLayer.Receive` is input to its end: what one packet's octets make the stack send.

**Foundations** (`Rings`, `Pools`, `EventLoop`). The sentinel ring and the object pool as heap structures,
and the main loop with its two hand-off stacks as a step system.

**The PROFILE reader** (`Numerals`, `Profile`, `Statements`, `Members`, `Entries`). The numeric parsers accept
exactly the numerals in range and invert a printer, the parse is the fold of the statement handlers over the
member's lines, a valid configuration or nothing, and the text of a written member is read back as what was
written.

Modules named after a layer (`CtciDevice`, `SocketLayer`, `Pbufs`, `IpLayer`, `IcmpLayer`, `Rings`,
`Pools`, `Routes.Table`, `Codec.Decoder`) hold the code in its imperative form: classes whose methods are
proved against the functions of the module they sit on. The theorems are about those functions.

Results that say a promise holds only under a condition, or fails:

- Copying into a chain is an append exactly on chains where everything behind the first buffer with room
  is empty (`Chains.AppendsIffReady`).
- A framed packet decodes to itself exactly if it is IPv4 and its end fits the halfword that gives the end of
  the data (`Codec.DecodeFrameIff`).
- Link padding is trimmed exactly when the last buffer holds all of it (`IpPackets.RoundTrip`); the code
  ignores the refusal of the trim, and an echo reply then carries the padding (`IcmpLayer.Receive`).
- A descriptor names a stranger's socket after 65535 recyclings of its slot (`SocketTheorems.ResolvesIff`);
  `HandleWraps` makes the run.
- A created socket gets a number through the facade exactly while its slot's generation is below 0x8000,
  because descriptors travel in a signed return code; beyond that the caller is told of a failure and the
  socket stays open (`SocketNumbers.CarriedIff`, `OpenCreated`).
- A parse that succeeds has a name twice exactly if some line enters a name longer than its field whose cut
  is already known at that line (`Statements.ParsedNames`): the scan compares the whole token with a stored
  name that has been cut. `Entries.DuplicateLetIn` is the text of such a member.
- A slot whose guard word is damaged is reclaimed without a look at its owner. Slots stay exclusive on every
  run on which the server judges a damaged slot only where no living client it could identify is waiting
  (`SlotTheorems.SlotsExclusive`). From any state with such a client, one overrun and a newcomer are enough
  for two living owners of the slot (`SlotLoss.DamageLoses`).
- Adopting a stopped pool is safe when its in-flight count is zero, as long as no update of the count has been
  lost, and when the pool has settled (`SlotTheorems.SlotsExclusive`, `ZeroIsQuiet`). The code adopts whatever
  the count: from any stopped state with a woken client at a published slot and another about to test that
  slot, the scrub can post the newcomer (`SlotLoss.AdoptionMisposts`), and with a third client outside a run
  on stores DONE into a slot its owner is staging into (`AdoptionStores`). No test of what the server can read
  tells the pools apart that have settled from those that have not (`NoTestTells`). The count itself is
  decremented by a plain load and store (src/nsfsx.c:573) and can be zero with a client inside (`CountLost`).
- Region checksums chain through the seed exactly when the first region has even length
  (`Checksum.ComposesIffEven`).
- An error about an ICMP packet without data is suppressed or not by what the link padded it with
  (`IcmpPackets.SuppressedIff`).
- After shutdown every buffer has been freed if and only if no subtask had to be abandoned with one in
  flight (`CtciHandoff.AllFreedAtShutdown`).

Where the code and its comments differ the model follows the code: TCPCONFIG without a keyword is accepted
(src/nsfcfg.c:441 says at least one), and only the limited broadcast address suppresses an ICMP error.

Run `dafny verify dfyconfig.toml` here to check everything.

## Model

| member | source | states |
|---|---|---|
| Codec.WalkCountsSegments | src/nsfctcif.c:54-87 | On arbitrary octets the walk ends; payloads handed up plus segments skipped are exactly the run of well-formed segments up to the end of data or the first malformed one, and each payload is inside its own segment |
| Codec.SpansDisjoint | src/nsfctcif.c:54-87 | The payloads are in order and disjoint, with a whole segment header between any two |
| Codec.DecodePack | src/nsfctcif.c:34-87 | A block packed from any list of IPv4 packets decodes to that list in order, whatever the buffer holds behind the data |
| Codec.DecodeFrame | src/nsfctcif.c:98-131 | A packet encoded for a WRITE decodes to itself |
| Codec.DecodeFrameIff | src/nsfctcif.c:98-116 | The block sent for any packet decodes to it exactly if the packet is IPv4 and its end fits a halfword |
| Codec.Decoder.Next | src/nsfctcif.c:54-87 | The cursor loop yields the walk's payloads one by one and accounts for every segment passed over |
| Codec.EncodeHdr | src/nsfctcif.c:98-116 | The framing halfwords written around a packet in place make the encoded block, its lengths cut to halfwords whatever the block size; an empty or oversized packet leaves the block untouched |
| Codec.Encode | src/nsfctcif.c:118-131 | Copying then framing gives the encoded block, or refuses |
| CtciInvariant.StepKeeps | src/nsfctcib.c:234-538 | Every step of executive, subtasks, channel and stop request, in any interleaving, keeps one holder of the READ, one of the WRITE while `txbusy`, the hold around every WRITE, and a wake-up behind all work handed up |
| CtciSafety.PairSequencing | src/nsfctcib.c:234-338 | A WRITE starts only with no READ outstanding and the read subtask parked; a READ starts only with no WRITE outstanding or promised |
| CtciSafety.NoReadAfterStop | src/nsfctcib.c:252-294 | Once the READ is held under a stop, no READ starts again at any later point of any run |
| CtciSafety.HaltIsAimed | src/nsfctcib.c:425-522 | A halt is issued only for a READ that is outstanding or already completing, and at most once for each |
| CtciSafety.NoStall | src/nsfctcib.c:356-538 | When the executive is blocked and no internal step is possible, the send queue is empty, nothing is held and a READ is armed |
| CtciSafety.ExecutiveMoves | src/nsfctcib.c:356-695 | The executive can always move, except in WAIT, in the join and after shutdown |
| CtciSafety.StopReachesBoth | src/nsfctcib.c:234-249 | After a stop one of the subtasks can always move until both have ended, without any timeout |
| CtciSafety.AfterKick | src/nsfctcib.c:425-522 | At the WAIT gate the READ is armed or released, or a WRITE is in flight |
| CtciProgress.InternalStepCounts | src/nsfctcib.c:252-538 | With nothing new arriving every internal step strictly lowers a measure |
| CtciProgress.InternalRunsEnd | src/nsfctcib.c:252-538 | A run of internal steps is no longer than the measure it starts at |
| CtciProgress.Quiesces | src/nsfevt.c:318-376 | From every reachable state the driver comes to rest in finitely many steps in any order, and where it rests with its executive blocked everything accepted has been sent or dropped and a READ is armed |
| CtciHandoff.StepHands | src/nsfctcib.c:183-221 | Every step of every agent keeps blocks, packets and buffers accounted for |
| CtciHandoff.DecodedAreCompleted | src/nsfctcib.c:264-294 | The blocks decoded are the normally completed READ blocks, once each, in order, and read exactly as they completed |
| CtciHandoff.WireIsAccepted | src/nsfctcib.c:471-511 | What WRITEs carried is the encoding of the accepted packets that fit, in FIFO order, but for one that may wait in the write buffer; CtciWire says which fit, and what their encoding is |
| CtciHandoff.NextOnWire | src/nsfctcib.c:297-338 | The block each WRITE starts with is the encoding of the next accepted packet |
| CtciHandoff.WriteBufferHeld | src/nsfctcib.c:297-338 | While a packet is in flight no step touches the write buffer |
| CtciHandoff.FrameCarries | src/nsfctcif.c:118-131 | A packet the channel carried decodes at the far end to the packet sent |
| CtciHandoff.BuffersConserved | src/nsfdev.c:237-260 | Every buffer handed to `dev_send` is in exactly one place and freed at most once |
| CtciHandoff.AllFreedAtShutdown | src/nsfdev.c:262-295 | After shutdown every buffer is freed if and only if no subtask was abandoned with one in flight |
| CtciHandoff.CallsCounted | src/nsfdev.c:237-260 | Calls of `dev_send` equal packets out, plus output errors, plus what is queued, plus one while `txbusy` |
| CtciWire.WireHolds | src/nsfctcib.c:471-511 | In every reachable state the blocks written, and the one waiting, hold octet for octet, one each and in order, the packets taken from the queue whose halfword length is neither zero nor over the block size less ten; under a stop, the first of them |
| CtciWire.ProperGoOut | src/nsfctcib.c:478-508 | If every packet accepted so far has between one octet and ten less than the block size, none is dropped: wire and write buffer hold every packet taken |
| CtciWire.AllSent | src/nsfevt.c:318-376 | Wherever the driver comes to rest without a stop, every such packet `dev_send` had accepted is on the wire in a block of its own, in the order accepted |
| CtciWire.AnyBlockSize | src/nsfctcib.c:80-111 | Every block size from 11 to 65535 octets is in force in some initial state |
| CtciWire.SendQueues | src/nsfdev.c:237-260 | `dev_send` takes a packet of any length unless 32 are queued; then it frees it once and counts an error |
| CtciWire.PacketInHand | src/nsfctcib.c:471-511 | In every reachable state the packet kick holds is freed and counted as an error exactly if its halfword length is zero or that length plus ten exceeds the block size; otherwise it is in the write buffer, octet for octet |
| CtciInbound.StepReceives | src/nsfctcib.c:183-221 | Every step of every agent keeps the inbound buffers accounted for: each decoded packet has one fate, and what went up is what handlers have got and what is queued |
| CtciInbound.InboundConserved | src/nsfctcib.c:183-215 | In every reachable state each inbound buffer ever allocated has been freed by the decode once, or is in one queued event, or has gone to its handler once |
| CtciInbound.HandlersGet | src/nsfctcib.c:183-221 | What handlers have got and next will get are the decoded packets that found a buffer with room and an event, each in its own buffer, in the order received |
| CtciDriver.DrainRun | src/nsfctcib.c:471-511 | The loop over the send queue, as a run of single steps, drops exactly the misfits at the head and then starts one WRITE or releases the READ; CtciDriver.KickDrops says which those are |
| CtciDriver.KickRunIs | src/nsfctcib.c:425-522 | One uninterrupted kick, step by step, has the stated whole effect |
| CtciDriver.KickDrops | src/nsfctcib.c:463-521 | A whole kick under the hold frees and counts the packets at the head of the queue whose halfword length is zero or leaves no room for ten octets of framing, loads the first other one octet for octet and tells the write subtask to go, or with none left releases the READ |
| CtciDriver.KickLeavesNothingHeld | src/nsfctcib.c:425-522 | After any kick the READ is held only behind a WRITE |
| CtciDriver.CallbacksReachable | src/nsfctcib.c:356-522 | A whole service or kick from a reachable state leads to a reachable state, so the theorems hold after the callbacks as the code runs them |
| CtciDevice.DeliverAll | src/nsfctcib.c:183-221 | With buffers and events for all, every decoded packet is handed up in order, in a buffer of its own |
| CtciDevice.DeliverIs | src/nsfctcib.c:183-221 | Handing packets up one by one gives each the fate that pool, buffer size and event pool allow it: no buffer, freed on a truncating copy, freed on a failed post, or queued |
| CtciDevice.UpIff | src/nsfctcib.c:183-215 | A decoded packet goes up exactly if the pool has a buffer at least as long as it and fewer than 128 events are queued, those of the packets before it included |
| CtciDevice.Device.DecodeBlock | src/nsfctcib.c:183-221 | The decode loop allocates, fills, posts and frees as the fates say, and counts the rest |
| CtciDevice.Device.IoService | src/nsfctcib.c:356-416 | The callback's effect on the device fields is the transition system's service: consume a filled block and hold, reap a completed WRITE and count it by its post code |
| CtciDevice.Device.IoPending | src/nsfctcib.c:530-538 | True exactly when a service would consume something |
| CtciDevice.Device.DrainQueue | src/nsfctcib.c:471-511 | The loop's effect on the fields, in numbers: the first k packets dropped and counted, no block can be made of them; packet k in the write buffer octet for octet with the write subtask told to start, or none left and the READ released; and it is the drain of the transition system |
| CtciDevice.Device.IoKick | src/nsfctcib.c:425-522 | The callback's effect on the device fields is the transition system's kick: that drain under the hold, otherwise at most a halt of an armed READ with packets waiting |
| SlotRules.OneReapRule | src/nsfreqx.c:237-285 | When the drain dispatches, holds and reclaims, and when the scrub posts and reclaims, by state, verdict and storage; the drain's reaps and the scrub's are exactly what the one governing rule allows |
| SlotRules.ServerGone | src/nsfreqx.c:288-308 | The loop decides whether any live address-space entry other than ours still names the retaining server |
| SlotSafety.StepKeeps | include/nsfreqx.h:313-338 | Every step of clients, server, quiesce, re-stamp and adoption keeps the pool's invariant, guard overruns included, provided the server does not judge a damaged slot over a living client it could identify, nor take over a pool with a client inside that has not settled |
| SlotTheorems.SlotsExclusive | include/nsfvsvc.h:128-151 | No slot ever has two owners, over all sound runs, through stops and adoptions |
| SlotTheorems.StepsLegal | src/nsfreqx.c:214-234 | Every step of a sound run moves every slot along a transition `nsfreqx_slot_legal` allows |
| SlotTheorems.LiveNeverReaped | src/nsfreqx.c:128-188 | A published slot is taken over only by the reaper and never from a client whose address space still names it |
| SlotTheorems.DispatchIsStaged | src/nsfsx.c:1485-1850 | What the server dispatches is what the slot's recorded living owner staged, and that owner stays parked until it completes |
| SlotTheorems.InServiceUntouched | src/nsfsx.c:1396-1475 | The slot in service is moved only by the finish of its own request |
| SlotTheorems.ReplyIsOwn | asm/nsfvsvc.asm:1008-1064 | A client reads out the result of the request it staged itself; that it comes to read it is SlotService |
| SlotTheorems.ZeroIsQuiet | asm/nsfvsvc.asm:584-593 | As long as no decrement has lost an update, a count of zero means that no living client is inside |
| SlotService.DoneIsPosted | src/nsfsx.c:1669-1670 | On every sound run, whatever stops and takes over, a slot in DONE has its ECB posted or the server is about to post it, and its waiting client can go on |
| SlotService.ResultArrives | src/nsfsx.c:1652-1672 | From any sound reachable state with the server up and idle: whatever the request in service is completed with, its waiting, identifiable client has it after two steps of the server and two of its own |
| SlotService.RequestServed | src/nsfsx.c:1485-1850 | ... and so for any published request with intact storage, whatever else is published or in service: the server, the executive and that client alone can bring it the result it is completed with |
| SlotService.RoundTrip | asm/nsfvsvc.asm:497-1064 | ... and for a whole call from outside the routine: claim, record, count, stage, publish, wait, read out and release |
| SlotService.StopLetsGo | src/nsfsx.c:1015-1046 | On any sound run a client waiting when the server has stopped can be woken, and leaves by its own steps, its slot free |
| SlotService.EndedIsReclaimed | src/nsfreqx.c:163-188 | From any state with the server up and idle, a published slot whose recorded address space the ASVT no longer names is freed by the server alone |
| SlotService.UnjudgedIsHeld | src/nsfreqx.c:128-160 | ... and one whose client cannot be judged is held, neither posted nor reclaimed |
| SlotService.FinishedWithout | src/nsfsx.c:1652-1672 | A request in service, once completed, is freed if its client has ended meanwhile and held if it can no longer be judged |
| SlotService.AdoptionSettles | src/nsfsx.c:649-703 | From any stopped state the server that takes over goes through every slot and comes up: what ended clients published is freed, living ones are posted with their requests held, other slots are as they were |
| SlotCount.CountKept | include/nsfvsvc.h:519 | Every step that loses no update keeps the count at least the number of living clients that have counted themselves in and of slots left behind by dead ones |
| SlotLoss.AdoptionMisposts | src/nsfsx.c:640-760 | From any stopped state with a woken client waiting at a published slot and another about to test that slot, taking the pool over with every guard intact can leave the newcomer posted with its request neither served nor held |
| SlotLoss.AdoptionStores | src/nsfsx.c:640-819 | From any such state with a third client outside, and every lower slot in use and not left published by an ended address space: a run of the server, the clients and the executive alone, every guard intact, stores DONE into the slot while its living owner is staging into it, which is no allowed transition |
| SlotLoss.NoTestTells | src/nsfsx.c:649-819 | Two stopped pools that show the server the same slots, count and anchor: one has settled; from the other a run with every guard intact makes a slot transition that is not allowed, under a living owner |
| SlotLoss.CountLost | src/nsfsx.c:563-576 | A run on which the plain decrement overlaps a client's increment, and the count reads zero with that client inside |
| SlotLoss.DamageLoses | src/nsfreqx.c:163-188 | From any state with a living, identifiable owner of a published slot, no lower slot free, and a client outside: one guard overrun, and a run of the server and that client alone leads to two living owners |
| SlotProbe.NextActionable | src/nsfsx.c:1396-1429 | The scan returns the lowest slot this pass can act on, or none exactly if there is none |
| SlotProbe.ProbePending | src/nsfsx.c:1459-1475 | The probe keeps the loop from WAIT exactly when the pass has something to finish or consume |
| SlotProbe.WalkFindsFirst | src/nsfsx.c:1485-1850 | The drain's walk stops at the lowest slot it can act on and acts on that one |
| Crossing.LandCopy | src/nsfreqx.c:24-33 | At most the clamp is moved, and nothing beyond it is touched |
| Crossing.SlotIn | src/nsfreqx.c:36-45 | The image crosses verbatim |
| Crossing.DispatchIn | src/nsfreqx.c:48-76 | The server's private copy has buffer and length rewritten to what was staged, and its own linkage and ECB |
| Crossing.ResultOut | src/nsfreqx.c:79-109 | Only result fields travel back |
| Crossing.Cross | src/nsfreqx.c:18-109 | Through all three hops the caller sees exactly what a direct call with its length clamped to 2048 would have shown, and no other field or byte of its own changes |
| SocketSafety.DestroyKeeps | src/nsfsoc.c:322-401 | Teardown leaves the slot vacant with its generation moved on, nobody parked on it and no SELECT naming it |
| SocketSafety.ReclaimInv | src/nsfreq.c:479-501 | After TERMAPI no socket of the application survives and its slot is free |
| SocketSafety.SweepInv | src/nsfreq.c:521-585 | The sweep frees exactly the slots classified dead and leaves every other as it was |
| SocketSafety.CreateInv | src/nsfsoc.c:159-179 | A created socket carries its owner's token in a slot that was free; a failed attach changes no other socket |
| SocketSafety.HandleInv | src/nsfreq.c:870-944 | Whatever the verb, caller and protocol answer, a dispatched request ends completed once or parked in one place; who may do what is SocketVerbs |
| SocketSafety.StepKeeps | src/nsfreq.c:994-1025 | Every action of clients, executive, protocols, timers and teardown keeps the invariant |
| SocketTheorems.ExactlyOnce | src/nsfsoc.c:238-304 | At all times between dispatches a submitted request is exactly one of queued, in one pend slot of one live socket, in one SELECT block, or completed |
| SocketTheorems.AtMostOnce | src/nsfsoc.c:259-304 | No request is completed twice on any run |
| SocketTheorems.ParkedOnOwn | src/nsfsoc.c:238-257 | A parked request's descriptor names the socket it is parked on |
| SocketTheorems.DestroyReleases | src/nsfsoc.c:322-401 | Teardown completes every request parked on the socket and leaves none there |
| SocketTheorems.DestroyCompletesSelect | src/nsfsel.c:246-268 | A SELECT naming a socket is completed by that socket's teardown |
| SocketTheorems.ResolvesIff | src/nsfsoc.c:104-121 | A descriptor resolves exactly when its slot is live and has been recycled a multiple of 65535 times since issue |
| SocketTheorems.HandleSafe | src/nsfsoc.c:81-157 | Within 65534 recyclings it resolves only to the socket it was issued for |
| SocketTheorems.HandleWraps | src/nsfsoc.c:386-399 | The bound is sharp: from any state of any run, the run of 65534 children opened and lost in a slot whose socket was destroyed, and one more, after which the old descriptor names the new socket |
| SocketTheorems.ForeignIsUnknown | src/nsfreq.c:640-666 | A socket is reached only by a caller with its application's recorded identity |
| SocketTheorems.OwnersLive | src/nsfreq.c:593-619 | In every reachable state every socket's token resolves to a live application |
| SocketTheorems.SweepExact | src/nsfreq.c:521-585 | Over any reachable state the sweep frees exactly the dead applications; one not due changes nothing |
| SocketTheorems.PokeCompletesReady | src/nsfsel.c:270-282 | After a readiness poke no parked SELECT still has a ready item |
| SelectAborts.HandleCuts | src/nsfsel.c:246-268 | The dispatch of any request takes a parked SELECT out of its block only as it tears down a socket that SELECT names |
| SocketVerbs.StrangerRefused | src/nsfreq.c:356-376 | Over all runs: a TERMAPI or SOCKET whose token names no application, or one recorded for another address space, is refused with EINVAL, and no application, socket or SELECT changes |
| SocketVerbs.OwnTerminates | src/nsfreq.c:488-501 | A TERMAPI by the application itself frees its slot, moves its generation on and destroys each of its sockets and no other |
| SocketVerbs.OwnSocket | src/nsfreq.c:593-619 | A SOCKET by the application itself: EPROTONOSUPPORT, EMFILE with no slot free or on a failed attach, or exactly one new socket with that token in the lowest free slot |
| SocketVerbs.SocketReports | src/nsfreq.c:611-618 | A SOCKET that reports no error reports the descriptor issued for the very slot it filled, and that descriptor resolves to it |
| SocketVerbs.InitRegisters | src/nsfreq.c:244-272 | INITAPI records the caller in the lowest free application slot |
| SocketVerbs.InitWhenFull | src/nsfreq.c:419-477 | With all 64 slots in use INITAPI succeeds exactly if a sweep is due and finds an application whose client has ended, else EMFILE |
| SocketVerbs.UnknownRefused | src/nsfreq.c:640-672 | A request on a descriptor that names no live socket, or one of another address space, is refused with EBADF and nothing else happens |
| SocketVerbs.OwnOperates | src/nsfreq.c:815-858 | A request on the caller's own descriptor reaches that socket: the protocol's completion is logged as it is, a parked one waits in that one free pend slot or gets EINVAL, a CLOSE takes that socket and its children not yet accepted, and no other |
| SocketVerbs.SelectDispatched | src/nsfsel.c:194-243 | Over all runs a dispatched SELECT: EINVAL if not whole; what is ready, if anything; nothing for the poll form; else parked for what it asked exactly if one of the four blocks is empty, and EMFILE otherwise |
| SocketVerbs.ScanFinds | src/nsfsel.c:107-137 | What a scan finds, item by item and for reading and writing apart: that the item names a live socket of the caller's that is ready for what it asks; it counts nothing exactly if there is none |
| SocketVerbs.NoSuchVerb | src/nsfreq.c:938-943 | An unknown verb is refused with EINVAL |
| SocketVerbs.ProtocolFinishes | src/nsfsoc.c:259-304 | A parked request is completed with what the protocol says, and no other pend slot moves |
| SocketVerbs.TimerFires | src/nsfsel.c:178-190 | A SELECT's timer empties its block and completes it with 0, no item ready |
| SocketVerbs.ProtocolResets | src/nsfsoc.c:322-401 | A reset takes that socket and its children not yet accepted, and no other; whatever it completes is completed with ECONNABORTED |
| SocketVerbs.ChildOpens | src/nsfsoc.c:159-236 | A child socket is made in the lowest free slot for its listener's application; with none free nothing changes |
| Selects.StepServed | src/nsfsel.c:107-282 | Every step of every party leaves a parked SELECT parked for what it asked, or answers it with the truth about the state the step began in, or aborts it as it tears down a socket it names |
| Selects.SelectHonest | src/nsfsel.c:107-282 | Over all runs: the completion logged for a submitted SELECT was made at some step, with a positive count and exactly the ready subsets of what was asked in that state as its caller may see it; or, given a time limit, with zero and nothing ready; or ECONNABORTED as that step tore down a socket it names; or at its own dispatch, EINVAL as it was not whole or EMFILE as every block was taken |
| Selects.PollHonest | src/nsfsel.c:194-228 | Over all runs: a SELECT that waits for nothing is completed by its own dispatch, with exactly what is ready in that state and how much, even if nothing is |
| SocketLayer.Layer.SocComplete | src/nsfsoc.c:259-304 | The in-place completion is the specified one |
| SocketLayer.Layer.SelScan | src/nsfsel.c:107-137 | The loop computes each item's ready subset and the count |
| SocketLayer.Layer.NotifyReady | src/nsfsel.c:270-282 | The loop re-scans and completes exactly as specified |
| SocketLayer.Layer.NotifyDead | src/nsfsel.c:246-268 | The loop completes every SELECT that names the dying socket |
| SocketLayer.Layer.SocDestroy | src/nsfsoc.c:322-401 | The in-place teardown is the specified one |
| SocketLayer.Layer.Terminate | src/nsfreq.c:479-501 | The walk over the table destroys exactly the application's sockets |
| SocketLayer.Layer.ReclaimApp | src/nsfreq.c:489-501 | The token is read before the slot's generation moves on |
| SocketLayer.Layer.AppSweep | src/nsfreq.c:521-585 | The sweep loop over the registry is the specified sweep |
| SocketLayer.Layer.SocCreate | src/nsfsoc.c:159-236 | The lowest free slot is taken with the owner's token, and a failed attach goes through the one teardown, as specified |
| SocketLayer.Layer.InitApi | src/nsfreq.c:419-477 | The lowest free application slot, after one sweep if there is none, as specified |
| SocketLayer.Layer.SelectRequest | src/nsfsel.c:194-243 | Refused if not whole; answered on the spot if something is ready or it waits for nothing; else parked in an empty block for what it asked, or refused exactly if every block is taken |
| Masks.SetIsOne | src/nsfeza.c:123-129 | Setting a number's mask bit sets that bit and no other number's |
| Masks.RightToLeft | src/nsfeza.c:107-121 | Octet-wise access is bit n mod 32, from the low end, of big-endian fullword n div 32 |
| Facade.BuildItems | src/nsfeza.c:490-508 | The item list is one item for each asked-for mapped number, in order |
| Facade.CountAgrees | src/nsfeza.c:519-530 | The executive's ready count is the number of socket numbers with any bit in the rewritten masks |
| Facade.Select | src/nsfeza.c:477-531 | On the answer the executive logs in any run for the items built from the masks: a mask bit is set iff it was set on entry, the number is mapped and below the clamped limit, and the socket is ready for that direction in the state of that answer, and the value returned counts the numbers set; a failure leaves the masks alone and has its cause; a timeout clears them |
| SocketNumbers.CarriedIff | src/nsfreq.c:618 | A descriptor survives the signed return code, and is told from a failure exactly for generations below 0x8000 |
| SocketNumbers.Client.Reserve | src/nsfeza.c:203-212 | The loop finds the lowest free number, or none exactly if there is none |
| SocketNumbers.Client.Open | src/nsfeza.c:189-224 | The number is reserved before the request goes out; success maps it to the new descriptor, a full table or a failure maps nothing, and no two numbers share a descriptor |
| SocketNumbers.Client.Close | src/nsfeza.c:302-316 | The number is free afterwards whatever the request returned |
| SocketNumbers.OpenCreated | src/nsfeza.c:214-223 | With a number free, a created socket gets it if and only if its generation is below 0x8000; else it is left open without one |
| Chains.CopyInAppends | src/nsfbuf.c:246-271 | On an append-ready chain a copy in appends, clamped at capacity |
| Chains.CopyInStaysReady | src/nsfbuf.c:246-271 | ... and the chain stays append-ready |
| Chains.AppendsIffReady | src/nsfbuf.c:246-271 | Append-readiness is exactly the condition under which every copy in is an append |
| Chains.InThenOut | src/nsfbuf.c:246-291 | Copy in then copy out returns the old octets followed by the new ones |
| Chains.TrimTailFlat | src/nsfbuf.c:224-244 | A tail trim drops exactly n octets if the last buffer has them, else nothing |
| Buffers.BufferPools.Alloc | src/nsfbuf.c:134-178 | An empty buffer nobody else owns, of the class the hint and headroom ask for, with room for the hint; none exactly when that class is exhausted |
| Buffers.BufferPools.Free | src/nsfbuf.c:180-187 | Every buffer of the chain goes back to its own class; free and owned buffers always make up the pools |
| Pbufs.ChainLen | src/nsfbuf.c:311-322 | The walk returns the packet's length as a halfword |
| Pbufs.Prepend | src/nsfbuf.c:189-207 | Headroom is claimed in front of the packet and the cached total stays the walk-sum, as a halfword, or nothing changes |
| Pbufs.TrimHead | src/nsfbuf.c:209-222 | The packet loses its first n octets, or nothing changes |
| Pbufs.TrimTailInPlace | src/nsfbuf.c:224-244 | The walk to the last buffer and the cut there are the value-level trim |
| Pbufs.Append | src/nsfbuf.c:293-309 | Linking two chains, either of which may be none, concatenates the packets, and the head's cached total stays the walk-sum as a halfword |
| Pbufs.CopyInGrows | src/nsfbuf.c:246-271 | On any chain a copy in lengthens the packet by exactly what it takes |
| Pbufs.CopyInPlace | src/nsfbuf.c:246-271 | The loop over buffers and their tail rooms is the value-level copy in, and the cached total stays the walk-sum as a halfword |
| Pbufs.CopyOutOf | src/nsfbuf.c:273-291 | The loop delivers the packet's first n octets, or all of it, and changes no buffer |
| Pbufs.Pbuf.ResetRx | src/nsfbuf.c:324-334 | No headroom, full capacity, empty |
| Checksum.InCksumPartial | src/nsfcksum.c:22-61 | Over any chain the skip-and-sum loop is the seed plus the big-endian word sum of the range modulo 2^32, wherever buffer boundaries fall |
| Checksum.NoOverflow | src/nsfcksum.c:22-61 | For every halfword range and every seed up to 0xFFFFFFFF - 32768*0xFFFF nothing is lost modulo 2^32 |
| Checksum.ComposesIffEven | include/nsfcksum.h:31-43 | Regions chain through the seed exactly when the first has even length |
| Checksum.InCksumFold | src/nsfcksum.c:63-70 | The fold loop is the one's complement of the one's complement representative |
| Checksum.InCksum | src/nsfcksum.c:72-75 | The checksum of the range of the flattened packet |
| Checksum.StoredVerifies | src/nsfip.c:420-428 | Storing the checksum in its zeroed even-offset field makes the region sum to 0, always |
| Checksum.OnlyStoredVerifies | src/nsfip.c:329-334 | Changing one word of a verifying region keeps it verifying exactly for the same word or the other form of zero |
| Routes.PrefixCovers | src/nsfip.c:212-238 | A prefix-mask route matches exactly the addresses that share the network's high bits |
| Routes.LargerIsLonger | src/nsfip.c:222-225 | Among prefix masks the numerically larger is the longer |
| Routes.Table.RouteAdd | src/nsfip.c:171-182 | A normalized route is appended while the table has room, and matches its own network |
| Routes.Table.LocalAdd | src/nsfip.c:184-198 | The address is local afterwards, once, unless the list was full |
| Routes.Table.Lookup | src/nsfip.c:212-238 | The usable match with the largest mask, the first among equals, and its gateway or the destination as next hop; none exactly if nothing matches |
| IpPackets.HeaderFields | src/nsfip.c:415-428 | The header built has every field where RFC 791 section 3.1 puts it, and verifies |
| IpPackets.RoundTrip | src/nsfip.c:277-442 | Any payload that fits, sent and received at a local destination however buffered and padded, is delivered with its addresses, protocol and payload; the padding is gone exactly when the last buffer held it |
| IpPackets.DeliveredIff | src/nsfip.c:277-359 | A packet is delivered exactly if a whole version-4 header lies in its first buffer and sums to a nonzero multiple of 0xFFFF, its length is consistent, the low fourteen fragment bits are clear and it is for us |
| IpPackets.DroppedBy | src/nsfip.c:277-359 | Which check drops a packet that is not delivered, in header octets: length, header, checksum, fragment or address, in this order |
| IpPackets.AlteredIsDropped | src/nsfip.c:329-334 | One altered header word behind the first is never delivered, unless one form of zero became the other |
| IpLayer.Seal | src/nsfip.c:415-428 | The in-place field writes and the checksum store make exactly the specified header in front of the payload |
| IpLayer.Stack.Output | src/nsfip.c:388-442 | Route, headroom, identification and header in order, for packets of any length, the total cut to a halfword; a packet refused is unchanged, a packet sent is the specified one |
| IpLayer.Stack.Input | src/nsfip.c:277-359 | The checks in order give the specified verdict, and a delivered packet has its tail trimmed in place, for packets of any length, the walk-sum cut to a halfword |
| IcmpPackets.ReplyEchoes | src/nsficmp.c:127-134 | The reply verifies, has type 0 and the request's code, identifier, sequence number and data |
| IcmpPackets.ClassifiedIff | src/nsficmp.c:90-116 | A message is an echo request exactly if it has type 8, code 0 and a word sum that is a nonzero multiple of 0xFFFF; which others are too short or fail their checksum |
| IcmpPackets.ReplyIsFinal | src/nsficmp.c:104-116 | No reply is itself answered |
| IcmpPackets.Ping | src/nsficmp.c:66-157 | End to end: a message of type 8 and code 0 whose word sum is a nonzero multiple of 0xFFFF is delivered, and its answer, type 0, is delivered at the pinger with addresses swapped, checksums good and data unchanged |
| IcmpPackets.ErrorVerifies | src/nsficmp.c:241-251 | The error message verifies and carries its quotation |
| IcmpPackets.QuoteComplete | src/nsficmp.c:206-239 | The 68-octet capture always holds the header and 64 bits of data that must be quoted |
| IcmpPackets.SuppressedIff | src/nsficmp.c:206-234 | About any packet output could have built, padded or not, an error is suppressed exactly if its source is no single host, its destination is broadcast or multicast, or it is ICMP and what follows its header begins like an ICMP error |
| IcmpPackets.NoErrorStorm | src/nsficmp.c:216-234 | The packet carrying an error message is itself always suppressed, padded or not |
| IcmpLayer.ReplyInPlace | src/nsficmp.c:127-134 | The writes into the request's own buffer make the reply, and leave what is behind the message |
| IcmpLayer.IcmpInput | src/nsficmp.c:66-157 | With lengths and addresses read from the packet's own header, options or not and however buffered behind the type and checksum: answered exactly if the message is of type 8 and code 0 and verifies, and then, if its sender can be routed to, by the reply behind a fresh header with addresses swapped; headroom never runs out |
| IcmpLayer.SendError | src/nsficmp.c:182-263 | Silent exactly when suppressed; without a buffer nothing; else, given a route, the error goes from the address the original was sent to back to its source, quoting it |
| IcmpLayer.Receive | src/nsfip.c:277-386 | Input to its end, told of the octets that arrived: dropped with the verdict, answered by ICMP, handed to a registered transport, or refused with protocol unreachable quoting the trimmed packet |
| IcmpLayer.AnsweredIff | src/nsficmp.c:66-157 | An ICMP packet delivered in one buffer, whatever its options, is answered exactly if the message behind its header has type 8, code 0 and a word sum that is a nonzero multiple of 0xFFFF |
| IcmpLayer.ProtocolRefused | src/nsfip.c:361-386 | A delivered packet for a protocol nobody registered is refused with type 3, code 2 quoting its header and eight octets, unless its source is no single host, its destination is no host, or there is no buffer |
| IcmpLayer.PingAnswered | src/nsficmp.c:66-157 | A message of type 8 and code 0 that verifies, in one buffer, padded as the link likes, makes the stack send the reply to exactly what was asked whenever its sender can be routed to, header and message given octet by octet |
| Rings.Ring.constructor | src/nsfque.c:11-17 | An empty ring through its sentinel |
| Rings.Ring.Enq | src/nsfque.c:19-33 | Enqueues at the back of the sequence, refused exactly when full |
| Rings.Ring.Deq | src/nsfque.c:35-45 | Takes the front of the sequence, or nothing exactly when empty |
| Rings.Ring.Remove | src/nsfque.c:47-54 | Unlinks an element at any position and poisons its links |
| Rings.ReversedAt | src/nsfevt.c:203-220 | Position i of the reversal is position n-1-i of the chain |
| Rings.ReverseChain | src/nsfevt.c:203-214 | The pushed chain is reversed in place link by link |
| Rings.DrainHandoff | src/nsfevt.c:203-220 | The drained stack goes onto the ring in push order behind what is queued |
| Pools.Pool.constructor | src/nsfmm.c:86-136 | All objects carved, idle and on the free list once |
| Pools.Pool.OutIsInuse | src/nsfmm.c:143-163 | `inuse` counts the live objects, and the list is empty exactly when all are out |
| Pools.Pool.Alloc | src/nsfmm.c:143-163 | Takes the object freed last; fails exactly when none is left; the list stays acyclic and duplicate-free |
| Pools.Pool.Free | src/nsfmm.c:165-187 | A live object of this pool goes back on top; a double free or a foreign object is refused and changes nothing |
| EventLoop.NoLostWakeup | src/nsfevt.c:318-354 | Whenever the executive is blocked in WAIT, anything on a hand-off stack has a producer between push and post |
| EventLoop.HandedInOrder | src/nsfevt.c:203-220 | Over all drains, elements are dispatched in push order and requests in submission order, each once |
| EventLoop.NoStarvation | src/nsfevt.c:346-354 | An event at queue position k, in any phase of a pass, is dispatched within k/64 + 1 passes, the budget already used up in the phase under way counted with k, whatever handlers, requests and devices post meanwhile |
| EventLoop.PassesBounded | src/nsfevt.c:346-354 | No pass dispatches more than 64 events |
| EventLoop.StopIsObeyed | src/nsfevt.c:376-379 | Once a stop is asked for at most the pass under way is completed, and the loop ends only if asked to |
| EventLoop.TickIsTaken | src/nsfevt.c:356-367 | A tick is taken by the end of the pass under way, whatever else arrives |
| EventLoop.PostsAreQueued | src/nsfevt.c:127-146 | What a poll, request, handler, timer or kick posts is queued behind everything queued before, and nothing is lost on the way |
| EventLoop.ComesToRest | src/nsfevt.c:318-354 | With nothing queued and nobody posting the loop makes at most two more passes, whatever ECBs are still posted, and then waits with none of them posted |
| Numerals.ParseUint | src/nsfcfg.c:114-131 | The loop accepts exactly the nonempty digit strings below 2^32, with their value |
| Numerals.UintPrints | src/nsfcfg.c:114-131 | Reading inverts the decimal printer on all 32-bit values |
| Numerals.Ipv4Iff | src/nsfcfg.c:137-163 | An address is read exactly from four octet numerals with single dots between and nothing around, to their packed value |
| Numerals.ParseIpv4 | src/nsfcfg.c:137-163 | The loops compute that reading |
| Numerals.Ipv4Reads | src/nsfcfg.c:137-163 | Any spelling of four octets, printed or with leading zeros, is read first octet highest |
| Numerals.ParseCuu | src/nsfcfg.c:167-181 | The loop accepts exactly one to four hex digits, with their value |
| Numerals.CuuPrints | src/nsfcfg.c:167-181 | Reading inverts the hex printer on all halfwords |
| Profile.KwEq | src/nsfcfg.c:73-81 | The loop decides equality up to case |
| Profile.NameEq | src/nsfcfg.c:86-94 | The loop decides whether the whole token equals the stored name up to case |
| Profile.TokensOfLine | src/nsfcfg.c:204-218 | Splitting words joined by blanks gives the words back |
| Profile.Tokenize | src/nsfcfg.c:204-218 | The loops give the line's tokens, or refuse exactly more than the maximum |
| Statements.ParsedValid | src/nsfcfg.c:495-561 | Success implies every count within its maximum, every value within its range, every name within its field, a HOME, no address and no port reservation twice |
| Statements.ParsedNames | src/nsfcfg.c:495-561 | ... and no name twice if and only if no line enters a name longer than its field whose cut is known by then |
| Statements.FirstFault | src/nsfcfg.c:495-561 | The line reported is the first at fault: the member up to it fails, the member before it does not fail so |
| Entries.EntryReads | src/nsfcfg.c:244-439 | Every entry of every table, in range, new and with names a line can carry, is written as a statement whose handler enters exactly that entry |
| Entries.EntryRefused | src/nsfcfg.c:244-439 | A sound entry that cannot be entered is refused with 705 if its key is taken, else with 706, its table full |
| Entries.TcpReads | src/nsfcfg.c:441-473 | Both sizes of TCPCONFIG, from 256 to 262144, are entered once |
| Entries.UdpReads | src/nsfcfg.c:475-493 | UDPCONFIG sets the checksum flag once |
| Entries.MemberReads | src/nsfcfg.c:495-561 | The text of a member of written entries, lines, blanks and all, is read back as exactly those entries, in order; without a HOME it is refused whole with 707 |
| Entries.DuplicateLetIn | src/nsfcfg.c:86-106 | The text of a member that is accepted and has a device name twice, for any full-length name and anything behind it |
| Members.TextReads | src/nsfcfg.c:495-561 | The text of any statements that lines can carry is taken apart into those statements |
| Statements.CopyLine | src/nsfcfg.c:513-521 | The copy takes the physical line up to its newline, or refuses exactly more than 255 characters |
| Statements.Parse | src/nsfcfg.c:495-561 | The loop is the fold of the statement handlers over the logical lines; a valid stamped configuration, its names unique exactly if no line collides, or a zeroed one with line and code |

## Left out

- TCP, UDP and the timer queue: protocol operations are an abstract contract (complete, park or refuse; a
  timer fires or is cancelled), because their state machines are separate subjects.
- MVS services (SVC 99, EXCP linkage, STIMER, ESTAE, SSI chain, operator console): foreign calls; the
  channel is the model in src/nsfctcio_host.c, and POST, WAIT and compare-and-swap are atomic steps.
- Operator commands, message text, tracing and statistics rendering: plumbing whose properties are easy.
- Entries.MemberReads: writes no TCPCONFIG or UDPCONFIG lines; Entries.TcpReads and Entries.UdpReads have their statements.
- Statements.Parse: the handlers are functions on a configuration value, so the update in place of NSFCFG is
  not captured; message texts and `cfg_load` are not modelled.
- Profile.Tokenize: returns the tokens rather than cutting the line buffer in place; the character set is
  one, and the text holds no NUL.
- Steps are sequentially consistent, one store at a time; counters are unbounded except where a width is
  the point (halfword lengths, generations, identifications, checksum arithmetic).
- The 500 ms poll timeouts in `wait_or_stop` are environment steps: the progress theorems do without them.
- The order in which a listener's children are torn down is taken as table order, where the code follows
  the protocol's own list; the theorems do not depend on it.
- Generic readiness (src/nsfsel.c:119-127) and a protocol's own poll function are one field, `ready`,
  which protocol steps change at will.
- Freeing an anchor or the retained SVC routine when the in-flight count is zero (src/nsfsx.c:770-800,
  asm/nsfvsvc.asm:1301-1306) is not modelled: an anchor is never freed under a client.
- A server stops from an idle pass, and a new one takes over when it has; a server that abends in the middle
  of a pass is not modelled.
- SlotTheorems.SlotsExclusive: holds on sound runs, whose condition on a take-over (count zero and no update
  lost, or settled) the code does not test; SlotLoss has what happens otherwise.
- A failed POST (asm/nsfvsvc.asm:1289-1299) is a step only while the server is stopping.
- `dev_start`, `nsfdev_collect_ecbs` and the device table are not modelled: there is one CTCI device, up.
- IcmpLayer.IcmpInput: requires the type and checksum of a message that has them in the packet's first buffer,
  as IcmpLayer.Receive does, where the code reads and writes them; src/nsficmp.c:13-14 asks for header and
  message in one buffer, which is more.
- Codec.EncodeHdr: sums are unbounded, so the wrap of a fullword length near 2^32 is not modelled.
- Pools.Pool.Free: models the build with the debug guards; without them a double free is not caught.
- Rings.DrainHandoff: the elements are bare queue elements; that an event embeds one is not modelled.
- Facade.Select: takes the answer from the executive's log; the crossing that carries it is Crossing.Cross.
- EventLoop.NoLostWakeup: the device terms of the gate (src/nsfevt.c:318-322) belong to the CTCI driver's
  transition system and are not repeated; `posts` are the events that found a pool element, so drops on
  exhaustion (src/nsfevt.c:134-138) do not appear.
- IcmpLayer.Receive: registered transports are handed the packet; what UDP and TCP do with it is left out, and
  registration (src/nsfip.c:103-124) is the list of protocols it is given.
- `nsfip_config` and classful masks are not modelled; routes come in through Routes.Table.RouteAdd.
