# A model of the rfx packet proxy

rfx sits between a client and a server, cuts the two TCP streams into packets, lets loadable filters
look at, drop, change or inject packets, and writes them on. This project models the packet path and
the state of the filters attached to it, and proves what they keep over every call and every run.

| files | what they model |
|---|---|
| `Packets`, `TailQueue` | packets, `pqh_pull`, and the intrusive tail queue on the heap: back pointers are locations, either the head or some node's `next` |
| `Framing`, `RecvQueue` | the stream as a list of packets, and `recvq` on the heap, which finds them whatever the sizes of the reads |
| `SendSpec`, `SendQueue`, `SendBytes` | the window of `sendq` over its queue, as values and on the heap, and how many bytes a send writes |
| `SessionSpec`, `SessionProps`, `SessionRuns` | one connection: its callbacks as steps, what every step keeps, and the promises over whole runs |
| `SessionClose` | what the kernel's answers do to a pipe, and exactly when a session closes |
| `SessionRoutes`, `SessionFates`, `SessionCover` | which queue each packet gets to, what becomes of injected packets, and when a pipe loses no bytes |
| `Pipe`, `Session` | the objects that take these steps: pipes with the heap queues, the delayed queue and the session; every packet is a node in one place with one reference |
| `Ownership` | which place holds which packet, against the reference counts |
| `LootMask`, `LootCommand`, `LootText` | the set of shown items, the command language that edits it, and its reply; what a command means by the characters in it |
| `ChatParse`, `Chat`, `ChatFilters`, `ChatText` | the chat filter, the event queue drained by the chat and loot filters together, and one packet through the whole chain; lines and replies byte by byte |
| `SavedState`, `Reload` | what filters save, and reloading a module under its instances |
| `LogLevel`, `LogText` | the log-level option of the configuration library, printed and read back; what each text does to each priority |

An operation that changes state is a method proved equal to a function of the old state; the lemmas
are about those functions. The answers of the kernel (how much a write took, which bytes a read gave,
interruptions, failures), of the dynamic linker and of the file system are parameters, so a statement
about all of them is a statement about every behaviour of the outside.

## What the proofs found

- `sendq::pull` keeps the window a prefix of the queue if and only if the window covers the queue, or
  is full, or the list has no immediate packet for the pipe. Otherwise the injected packet is sent in
  the place of a queued one, and the wrong packet is retired. `RoundKeepsCleanIff` says exactly which
  rounds of the filter loop keep a pipe covered: one that forwards a packet and injects an immediate
  one behind it the same way never does, unless the window is full. `ClientPacketLost` is a run from a
  fresh session in which the server gets the injected packet twice and the client's packet never. Byte
  conservation and lossless closing are therefore proved for pipes whose pulls were covered, and for
  all runs of filters that inject only with a delay; what the window names, the routing of packets, the
  timers and the watchers are proved for all runs.
- Immediate injected packets take their place around the packet in hand if and only if they fit into
  the window together.
- A filter that injects a packet and marks it dropped gets it freed if and only if it carries no delay,
  has a known direction, and fewer immediate packets of its direction come before it in the list than
  the window has room for (`DroppedIsFreedIff`). Otherwise it waits in the delayed queue, and its timer
  sends it: `DroppedPacketSent` is such a run.
- The comment in `rfx_chat.cpp` promises a search for a colon and a space after the nick. The loop
  stops at a colon, or at the byte before a space. It finds the colon and space if and only if neither
  is met before (`SeparatorFindsColonSpaceIff`), and the message is the promised one under the same
  condition; of "a bc de: hi" the message is "de: hi".
- The reply to a loot command is cut by its last digit if and only if both figures have five digits.
- When a session is destroyed, exactly the packets it was in the middle of reading are not freed.
- The list of log levels needs a byte more than its text and closing zero if it has one name. An empty
  list leaves the buffer as it was, without a closing zero, so that the buffer reads back as what was
  printed if and only if something was printed or it started with a zero.

## Model

| member | source | states |
|---|---|---|
| TailQueue.TailQ.constructor | include/queue.h:413-416 | an initialised queue is the empty list, with the head as the last location |
| TailQueue.TailQ.InsertTail | include/queue.h:428-433 | appends to the list; every back pointer still is the location that points at its node |
| TailQueue.TailQ.Remove | include/queue.h:452-459 | deletes an arbitrary member from the list, keeps all back pointers right and leaves the node's own `next` for the loop that removes while walking |
| TailQueue.BackPointerIsTheOnlyLocation | include/queue.h:403-407 | of all the locations of a queue, exactly the back pointer of a node points at it; the last location points at nothing |
| TailQueue.TailQ.Pop | pktq.c:112-119 | takes the head off the list, or says that it is empty |
| TailQueue.TailQ.Discard | pktq.c:155-163 | takes the head off and gives back one reference, freeing it exactly when that was the last; no other count changes |
| RecvQueue.PktNew | pktq.c:10-30 | a new packet: the header for its length and type, zeros behind it, no delay, not dropped, one reference |
| TailQueue.Node.Ref | pktq.c:33-38 | one reference more on a live packet |
| TailQueue.Node.Unref | pktq.c:41-49 | one reference less; the packet is freed exactly when none is left |
| TailQueue.PqhPull | pktq.c:129-152 | on the heap, with removal inside the walk: source, destination and output vector end as the bounded partition says, the vector describes the moved packets in order, and the counts drop for exactly the freed ones |
| Packets.PullIsBoundedStablePartition | pktq.c:129-152 | a scanned prefix splits into moved, freed and kept in their order, the rest is untouched, and the scan stops early only when the vector is full |
| Packets.PullConserves | pktq.c:129-152 | a pull loses and duplicates nothing |
| Framing.FramesAreTheStream | proxy.cpp:100-193 | the complete packets and the unfinished rest are the stream, byte for byte |
| Framing.FramesOfPackets | proxy.cpp:118-170 | round trip: cutting a concatenation of packets gives those packets, whatever unfinished bytes follow |
| Framing.FramesOfMore | proxy.cpp:107-174 | cutting in two reads, with the rest carried over, is cutting at once: where a read ends does not matter |
| Framing.RestHasNoFrame | proxy.cpp:141-174 | no complete packet is left in the rest |
| Framing.HeaderRoundTrip | pktq.c:24-27 | the header that pkt_new writes from the two numbers of a received header is that header |
| Framing.LowByteFirst | rfx_modules.h:19 | the low byte of a number comes first, in what is read and in what pkt_new writes |
| Framing.FramesGoOn | proxy.cpp:118-170 | a packet that was read goes the way of its pipe, with no delay and no drop mark |
| RecvQueue.RecvQ.constructor | proxy.cpp:91-94 | nothing read, nothing pending |
| RecvQueue.RecvQ.Recv | proxy.cpp:100-193 | for every sequence of reads: the queue grows by exactly the complete packets of what was pending and what was read, the pending bytes are exactly the unfinished rest, the result says whether more can come, and only new nodes join the queue |
| RecvQueue.RecvQ.NothingComplete | proxy.cpp:107-174 | between calls, all packets ever pushed are the complete packets of all bytes ever read, and `rd`, `rd_buf` and `rd_pos` hold the rest |
| RecvQueue.RecvQ.Deliver | proxy.cpp:119-174 | one readv keeps the agreement with the stream, for a full header, a full packet or neither |
| RecvQueue.RecvQ.ExtractAll | proxy.cpp:142-170 | the inner loop ends and consumes all bytes of the second buffer |
| RecvQueue.RecvQ.Extract | proxy.cpp:142-170 | one round of it consumes at least a byte and keeps the agreement |
| RecvQueue.RecvQ.PopIn | proxy.h:65 | hands over the oldest packet, which nothing else holds |
| SendSpec.FillEmbedded | proxy.cpp:60-68 | a refilled window is empty only if the queue is |
| SendSpec.RunEmbedded | proxy.cpp:20-86 | in every run of pushes, sends and pulls, covered or not, the window names queued packets in rising order, only the first of them partly written |
| SendSpec.PullAlignsIffCovered | proxy.cpp:75-86 | from a prefix window, a pull gives a prefix window if and only if the window covered the queue, or was full, or the list had no immediate packet for the pipe; otherwise the first new entry names a later packet than its place |
| SendSpec.MovesNothingIff | proxy.cpp:83 | a pull moves the first immediate packets of its direction, as many as the window has room for |
| SendSpec.PullBehindWindowMisdelivers | proxy.cpp:20-86 | what writing out the window then does, exactly: the pulled packets are written after the old window, and as many packets are retired from the head |
| SendSpec.InjectedTwiceQueuedNever | proxy.cpp:20-86 | the concrete run: any queued packet, any packet pulled behind it, and the bytes written are the pulled packet's twice |
| SendSpec.RunConserved | proxy.cpp:20-86 | in every run with covered pulls, the bytes written and those pending are all packets given to the queue, in order |
| SendSpec.SendLoopConserved | proxy.cpp:32-69 | one send keeps that, for any partial writes, interruptions and failures |
| SendSpec.InjectConserved | proxy.cpp:75-86 | so does one covered pull |
| SendSpec.EnqueueConserved | proxy.h:66 | so does a push behind the window |
| SendSpec.PendingIsWindowThenRest | proxy.cpp:20-86 | the pending bytes are the bytes of the window followed by the packets it does not reach |
| SendSpec.SendLoopResult | proxy.cpp:17-72 | send returns 0 exactly when the window is empty, and then the queue is empty; -1 only on a failed write; else the number of entries in the window |
| SendBytes.ConsumeWrites | proxy.cpp:34-46 | when writev takes n bytes, exactly the first n bytes of the window are out, and the window holds the others |
| SendBytes.FillIsFull | proxy.cpp:60-68 | a refill names the first 64 packets of the queue, or all if there are fewer, from their first byte |
| SendBytes.SendWrites | proxy.cpp:17-72 | a whole send writes exactly as many bytes as the kernel takes, from the front of what is to go out; the others still are to go out, none twice and none skipped |
| SendBytes.SendEnds | proxy.cpp:46-59 | after any writes and interruptions: EAGAIN gives the number of entries left, any other error -1, nothing left 0, and the answers behind change nothing |
| SendBytes.AcceptingDrains | proxy.cpp:17-72 | a kernel that takes something at least as often as there are bytes gets the whole queue, in order |
| SendBytes.ImmediateIs | pktq.c:137-147 | the immediate packets of a direction are those without delay and drop mark that go that way; those freed are the same with the mark |
| SendBytes.PullTakes | proxy.cpp:75-86 | queue and window grow by the first of them, until the window has 64 entries; nothing else changes |
| SendQueue.SendQ.constructor | proxy.cpp:12-15 | an empty queue and window |
| SendQueue.SendQ.PushOut | proxy.h:66 | on the heap: the queue grows, the window does not |
| SendQueue.SendQ.Send | proxy.cpp:20-72 | on the heap: state and result are those of the specified send; the queue that is left is a tail of the old one, and exactly the packets that left it have lost a reference, and are freed if it was the last |
| SendQueue.SendQ.FillWindow | proxy.cpp:60-68 | the refill names the first packets of the queue, as many as the window takes |
| SendQueue.SendQ.WriteOut | proxy.cpp:35-45 | retires every fully written packet and trims the next |
| SendQueue.SendQ.Compact | proxy.cpp:79-82 | the memmove keeps the entries and puts them at the front |
| SendQueue.SendQ.PullIn | proxy.cpp:75-86 | on the heap: queue, window and source end as the specified pull says, with compaction, also when the window is full; which nodes stay, which join the queue, and that exactly the freed ones lose a reference |
| SendQueue.PulledPkts | pktq.c:129-152 | pulling nodes and pulling the packets they hold agree |
| SessionProps.RunKeepsIdle | main.cpp:616-715 | after every callback of every run, whatever filters and kernel do: nothing waits for the filter; what waits to be sent has a write watcher or the pipe is broken; all delayed packets have running timers; each packet is in one place; bytes are conserved while pulls are covered |
| SessionProps.FilterOneKeepsInv | main.cpp:679-714 | the packet in hand and all injected packets are each given to one send queue, freed or delayed: none is lost, none is left in `pre` or `post` |
| SessionProps.RouteKeepsInv | main.cpp:691-694 | an injected list is shared out completely between the two pipes, the freed packets and the delayed queue |
| SessionProps.OnReadableSettles | main.cpp:635-641 | a readable descriptor leaves both pipes settled and all timers running |
| SessionProps.TimerKeepsIdle | main.cpp:563-574 | after an expired timer every packet is still in exactly one place, nothing is stranded and all other timers run |
| SessionProps.WriteKeepsInv | proxy.cpp:228-245 | after a write event the queue is empty, the pipe broken or the watcher active, and nothing was added or reordered |
| SessionProps.ShutdownWhenDrained | proxy.cpp:236-239 | a write event shuts the write side down exactly when, at the end of the input and with nothing to filter, nothing is left to send or the write failed |
| SessionRuns.LosslessClose | main.cpp:646-649 | when a session closes, a pipe that is not broken reached the end of its input and, if its pulls were covered, wrote all it was ever given; only delayed packets are discarded |
| SessionRuns.StepClosesWhenDone | main.cpp:646-649 | a session is closed only when it is done, and is closed by the descriptor callback that leaves it done |
| SessionClose.ReadEnds | proxy.cpp:175-224 | whatever was read before: EAGAIN leaves the pipe reading, the end of the file or any other error stops it and marks the end; it has read all bytes up to there and none after |
| SessionClose.WriteEnds | proxy.cpp:228-245 | whatever was written before: the watcher runs exactly if EAGAIN left something to send, and the pipe breaks exactly on another error |
| SessionClose.WritableDrains | main.cpp:642-644 | a writable descriptor and an accepting kernel: all that is queued goes out, and the watcher stops |
| SessionClose.ClosedIff | proxy.cpp:197-212 | after a descriptor callback the session is closed if and only if each pipe is broken, or at its end with nothing to filter and nothing to send |
| SessionClose.ClosedStays | main.cpp:646-649 | a closed session changes no more |
| SessionClose.RunWatches | proxy.cpp:216-245 | in every run a pipe reads exactly until its end, and has a write watcher exactly if it is not broken and has something to send |
| SessionClose.ClosedByWatchers | main.cpp:646-649 | so a session closes at the first descriptor callback after which every unbroken pipe is neither reading nor writing |
| SessionRuns.Transparent | main.cpp:673-715 | with filters that inject and alter nothing, the bytes written are at all times a prefix of the undropped packets among the bytes read, and all of them once the queue is empty |
| SessionRuns.PassesAllBytes | main.cpp:673-715 | if they drop nothing either, written, pending and unfinished bytes are the bytes read |
| SessionRuns.RunSurvivors | main.cpp:673-715 | a send queue is given exactly the undropped packets of its input, in order |
| SessionRuns.InjectionOrder | main.cpp:691-709 | per direction: the first immediate packets of `pre` that fit, the undropped packet, the first of `post` that fit; all of them if and only if they fit together |
| SessionFates.RouteByFate | main.cpp:691-694 | what becomes of every packet of an injected list, by its place in it: given to which queue, freed, or left to the delayed queue, each in order |
| SessionFates.PullsWalk | pktq.c:129-152 | the pulls of the two pipes, one after the other, in one walk over the list |
| SessionFates.DroppedIsFreedIff | pktq.c:137-147 | a dropped injected packet is freed if and only if it has no delay, a known direction, and finds room; else it waits |
| SessionFates.DroppedPacketSent | main.cpp:616-623 | a run of a fresh session in which an injected packet that is marked dropped is written to the client |
| SessionCover.RouteKeepsCleanIff | proxy.cpp:75-86 | an injected list keeps the bytes of a pipe safe if and only if its window covers the queue, or is full, or there is nothing to move |
| SessionCover.RoundKeepsCleanIff | main.cpp:679-709 | exactly which rounds of the filter loop do: none that forwards a packet and then finds an immediate one to inject behind it and room for it |
| SessionCover.LateInjectionIsLossless | main.cpp:673-715 | for filters that inject only with a delay, in every run: written and pending bytes are all packets given, and a session that closes has written them all |
| SessionCover.ClientPacketLost | main.cpp:673-715 | a run of a fresh session, for any packet from the client and any packet injected behind it: the server gets the injected one twice and the client's never |
| SessionRoutes.RunOnward | main.cpp:616-715 | in every run, for any filters: each packet newly given to a send queue, at once or after its delay, is for its direction, or was read from that pipe; and what was given or freed stays so |
| SessionRoutes.DirectionsKept | main.cpp:616-715 | with filters that do not turn a packet around, each send queue gets packets of its direction only |
| SessionRoutes.TimerOnward | main.cpp:616-623 | an emitted packet goes to the end of the queue of its own direction, leaves the delayed queue, and nothing else moves |
| PipeObject.ProxyPipe.HandleReadEvent | proxy.cpp:216-224 | with the heap queue: the receive queue, the bytes pending and the end-of-file mark are those of the specified step, and new packets belong to this pipe alone |
| PipeObject.ProxyPipe.HandleWriteEvent | proxy.cpp:228-245 | with the heap queue: the send queue, the error mark, the watcher and the shutdown are those of the specified step, and no packet left in a queue loses its owner |
| PipeObject.ProxyPipe.PopIn | proxy.h:65 | hands over the oldest packet, which nothing else holds then |
| PipeObject.ProxyPipe.PushOut | proxy.h:66 | takes over a packet that nothing else holds |
| PipeObject.ProxyPipe.Inject | proxy.h:67 | pulls from the list on the heap as specified; what is left of the list is still its own |
| PipeObject.ProxyPipe.Emit | main.cpp:616-623 | with a second reference, pushes and writes as specified; the packet is alive afterwards, sent or not |
| PipeObject.ProxyPipe.Release | main.cpp:491 | giving up the second reference leaves all queues as they are |
| Session.DelayedQueue.Pull | main.cpp:524-534 | pops all packets off the list in order, none started, and notes that there are new ones |
| Session.DelayedQueue.Start | main.cpp:537-550 | starts every timer that is not running, if there are new ones |
| Session.DelayedQueue.Take | main.cpp:563-570 | takes one packet out, which nothing else holds then |
| Session.RfSession.Route | main.cpp:691-694 | on the heap: first the server-to-client pipe, then the other, then the delayed queue; the list is empty at the end |
| Session.RfSession.FilterOne | main.cpp:679-714 | on the heap: one round of the loop, with the packet in hand and the two injected lists |
| Session.RfSession.Filter | main.cpp:673-715 | the loop over the packets read takes the specified rounds and ends |
| Session.RfSession.IoCallback | main.cpp:632-671 | both descriptor callbacks take the specified step |
| Session.RfSession.TimerCallback | main.cpp:563-574 | takes the packet out, emits it and gives up its reference: the specified step |
| Session.RfSession.Run | main.cpp:632-671 | every run of the objects is a run of the specification, so what is proved about runs holds of them |
| Session.RfSession.OneOwner | pktq.c:32-49 | between any two callbacks: each packet in a queue, half read or delayed is in one place, has a count of one and is not freed |
| Ownership.CountsAreOwners | pktq.c:32-49 | on every run a packet's count is the number of places that hold it, it is freed exactly when none does, and between callbacks every live packet has a count of one |
| Ownership.RunKeepsInv | evq.h:15-16 | event sources and the packet being emitted are the only extra references |
| Ownership.DestroyLeavesUnread | proxy.h:36 | destroying a session frees every packet except those half read |
| Ownership.PullPreKeepsInv | main.cpp:691-693 | injecting hands references over and gives back exactly those of dropped packets |
| Ownership.ExpireKeepsInv | main.cpp:563-574 | taking a delayed packet out, and deleting its holder after emitting, balance |
| LootMask.Mask.Test | rfx_loot.cpp:61-68 | membership, false for ids that are out of range |
| LootMask.Mask.Set | rfx_loot.cpp:70-84 | tells former membership and changes that element only; nothing for ids out of range |
| LootMask.Mask.SetAll | rfx_loot.cpp:32 | all items or none |
| LootMask.Mask.Add | rfx_loot.cpp:86-93 | union |
| LootMask.Mask.Sub | rfx_loot.cpp:95-102 | difference |
| LootMask.Mask.Assign | rfx_loot.cpp:40 | copy |
| LootMask.Mask.Count | rfx_loot.cpp:49-59 | the cardinality |
| LootMask.Mask.Load | rfx_loot.cpp:116-128 | a file overwrites the front of the mask, and gives its set if it is long enough |
| LootMask.Mask.Save | rfx_loot.cpp:41 | appends the mask |
| LootMask.Mask.Restore | rfx_loot.cpp:42 | takes over what is left, and succeeds if that fills the mask |
| LootMask.CountOfComplement | rfx_loot.cpp:257-259 | the ignored items are 65536 less the shown |
| LootCommand.RfxLoot.ParseMask | rfx_loot.cpp:190-220 | a word is understood exactly if it has a meaning, and the mask is then that set; hexadecimal ids wrap at 32 bits |
| LootCommand.RfxLoot.LootCmd | rfx_loot.cpp:222-261 | the shown set becomes the fold of the command's words from left to right, or stays if one has no meaning; ends on every input |
| LootCommand.RfxLoot.DropsItem | rfx_loot.cpp:158-181 | an item that appears is hidden exactly if its id is not shown |
| LootCommand.ReplyIsCompleteIff | rfx_loot.cpp:226-260 | the reply is complete if and only if not both figures have five digits; else exactly the last digit is missing |
| LootCommand.HalfShownReply | rfx_loot.cpp:226-260 | the reply for half of the items, with its last digit missing |
| LootCommand.FiguresOfReply | rfx_loot.cpp:257-259 | the two figures are the sizes of the shown set and its complement |
| LootCommand.RfxLoot.SaveState | rfx_loot.cpp:139 | appends both masks, shown first |
| LootCommand.RfxLoot.LoadState | rfx_loot.cpp:140 | loads both masks, and says whether there was enough; what a short state leaves is stated too |
| LootCommand.SavedLootIsRestored | rfx_loot.cpp:139-140 | round trip: any filter that loads what another saved has its masks |
| LootText.CommandDoesWhatItSays | rfx_loot.cpp:222-261 | for any blanks, signs and words: the shown set goes through the words from left to right, `+` adds, `-` takes away, no sign replaces; with an unknown word it stays as it was, and the reply says so |
| LootText.EveryTextHasPieces | rfx_loot.cpp:234-246 | every text is blanks, signs and words, so this covers all commands |
| LootText.FirstToken | rfx_loot.cpp:234-246 | blanks are skipped, a sign is taken off, and the word goes up to the next blank or sign |
| LootText.InfoReports | rfx_loot.cpp:231-232 | "info" changes nothing and gets the figures |
| LootText.NumberNamesItem | rfx_loot.cpp:208-218 | round trip: "0x" and a number in hexadecimal, with whatever follows, mean the item of that number modulo 2^32, or none |
| LootText.HexDigits | rfx_modules.cpp:6-16 | the value of a digit, in either case |
| LootText.WordsMean | rfx_loot.cpp:193-200 | "all" and "none" |
| LootText.FilesMean | rfx_loot.cpp:201-207 | "@" and a name mean the set in a file of 8192 bytes or more, whose path is cut at 63 characters |
| LootText.OthersMeanNothing | rfx_loot.cpp:190-220 | no other word means anything |
| LootText.BitsOfItems | rfx_loot.cpp:61-68 | where the bit of an item lies in those bytes |
| LootText.FigureReadsBack | rfx_loot.cpp:259 | round trip: a figure of the reply is its number in decimal digits, without leading zeros |
| LootText.ReplyIs | rfx_loot.cpp:257-260 | the text around the figures, cut at 31 characters |
| ChatParse.Parse | rfx_chat.cpp:44-64 | nick and message by the positions the three loops find, and no event for an unclosed bracket |
| ChatParse.ParsesChatLine | rfx_chat.cpp:43-66 | round trip: from "nick: message", with a nick free of colons and spaces, with or without a tag in brackets before it, and whatever surrounds it, the nick and the message are read back |
| ChatParse.SeparatorFindsColonSpaceIff | rfx_chat.cpp:61-62 | the search stops at a given colon and space if and only if from the end of the nick up to it there is no other colon, and no space behind a byte of that stretch |
| ChatParse.MessageIsPromisedIff | rfx_chat.cpp:43-64 | the message is what follows that colon and space, as the comment promises, if and only if the same holds, for a line not closed before it |
| ChatParse.NoMessageIff | rfx_chat.cpp:60-63 | when no message is found at all |
| ChatParse.MessageStartsTooEarly | rfx_chat.cpp:43-64 | the line "a bc de: hi", whose message is read as "de: hi" |
| ChatText.NotUnderstoodIff | rfx_chat.cpp:44-52 | a line gives nothing if and only if it starts with a bracket not closed before its last byte |
| ChatText.NickIsRead | rfx_chat.cpp:44-58 | the nick starts at once or behind the first closing bracket, and goes up to the first zero, colon or space |
| ChatText.MessageIsRead | rfx_chat.cpp:60-64 | a message goes up to a zero or the end, and is a fixed text if the packet ends before it |
| ChatText.ChatLineFires | rfx_chat.cpp:25-37 | public chat is read from offset 5 and private messages from offset 4; each is one event of its kind |
| ChatText.OthersPass | main.cpp:310-332 | what says nothing to "loot" and is no item on the ground passes as it is, with nothing injected and the shown items unchanged; without a loot filter everything does |
| ChatText.GroundItem | rfx_loot.cpp:158-181 | an item on the ground is dropped if and only if it is not shown |
| ChatFilters.ProcessPacket | main.cpp:310-318 | a packet through the chain: the events fired in turn, and the drop mark of an item that is hidden |
| ChatFilters.ChatPacket | rfx_chat.cpp:19-69 | fires one event of the packet's kind with its nick and message, or none |
| ChatFilters.Handle | main.cpp:684-688 | both passes, the packet and its events: the packet with its drop mark, nothing injected before it, the replies after it, and the new set of shown items |
| ChatFilters.LootMessage | rfx_loot.cpp:263-278 | a private message "loot: command" with both filters in the chain: the packet is dropped, the command is carried out, and its reply is the one packet injected |
| Chat.MakeReply | rfx_chat.cpp:80-102 | builds the reply packet in place |
| Chat.ReplyFillsItsFields | rfx_chat.cpp:84-101 | its fields fill it exactly: 32 bytes and at most 240 of text, the length in the header, the nick closed by a zero, and the text up to a closing zero |
| ChatText.BytesOfReply | rfx_chat.cpp:84-101 | every byte of a reply: the nick up to its first zero or ten characters and zeros behind it, the text up to 240 characters, and the fixed blocks |
| Chat.Chain.ChatEvent | rfx_chat.cpp:76-107 | a reply event becomes one injected packet and stops the chain |
| Chat.Chain.LootEvent | rfx_loot.cpp:263-278 | a private message to "loot" runs its command, drops and hides its source, and queues one reply |
| Chat.Chain.Drain | main.cpp:320-332 | for any chain and any events the drain ends, with the packets, the shown set and the drop mark that the commands among the events call for |
| Chat.StepDrains | main.cpp:320-332 | each event handled preserves what is still to come out, and lowers the measure: two rounds for a private message, one for any other event |
| Chat.OneCommandOneReply | rfx_loot.cpp:266-276 | with chat and loot loaded, one command gives exactly one reply packet of 32 bytes and its text, and the packet it came in, if any, is dropped |
| SavedState.RfxState.Read | rfx_api.h:28-35 | takes the front of what is left, at most what was asked for |
| SavedState.RfxState.Write | rfx_api.h:37-41 | appends |
| Reload.Module.constructor | main.cpp:267 | a module without library and instances |
| Reload.Module.Load | main.cpp:353-388 | a successful load sets the library, a failed one changes nothing; instances wait for their filters |
| Reload.Module.NewInstance | main.cpp:343-350 | the instance has a new filter if a library is loaded, else it waits |
| Reload.Module.Reload | main.cpp:392-431 | the two loops over the instances, on the heap, take the specified step for success and failure |
| Reload.Instance.Unload | main.cpp:400-405 | the filter is gone and what it saved is kept |
| Reload.Instance.Restore | main.cpp:416-422 | the new filter loads what was saved, and that is deleted |
| ReloadRuns.ReloadLosesNothing | main.cpp:392-431 | in every run of new instances, working filters and reload attempts, each instance has the state it would have if nothing were ever unloaded, in its filter or as saved bytes |
| ReloadRuns.SurvivesIffReadBack | main.cpp:392-431 | for libraries of any format: after any number of failed attempts, a state survives the next success if and only if the new library reads it back from what the old one saved |
| ReloadRuns.LootSpeaks | rfx_loot.cpp:139-152 | the loot module reads back what it saves |
| LogLevel.GetLogLevel | lib/mconf.c:234-255 | writes the names of the mask, each priority once, closed by a zero, or -1 exactly if they do not fit the room, which a negative length makes huge; never touches the buffer beyond its room |
| LogLevel.RoomNeeded | lib/mconf.c:245-246 | when they fit: exact room, plus a byte if there is one name |
| LogLevel.LevelOption.SetLogLevel | lib/mconf.c:119-155 | verdict and mask are those of the specified reading; after an error, the words before the bad one have had their effect |
| LogLevel.ReadsLists | lib/mconf.c:119-155 | a list of names, some negated, does to the mask what it says from left to right, up to the first unknown name |
| LogLevel.PrintedIsReadBack | lib/mconf.c:119-255 | round trip: with unique alphanumeric names and any aliases, what is printed for a mask reads back as the named part of it; so as the mask if and only if every bit of it has a name |
| LogLevel.BufferIsReadBack | lib/mconf.c:119-255 | the same through the buffer, read as a C string: it holds what was printed if and only if something was, or it started with a zero |
| LogLevel.PrintAndRead | lib/mconf.c:119-255 | printing into a buffer and reading it back: a clear option gets the named part of the mask, under that condition |
| LogText.ReadsLastMentions | lib/mconf.c:119-155 | for any table, text and priority: reading succeeds if and only if all names are known and nothing else is in the way; the priority is then as its last mention says, set or with a minus cleared, and as before if it is not mentioned; on an error, the mentions before it count |
| LogText.EveryTextMentions | lib/mconf.c:124-147 | every text is mentions and separators up to something that is none, so this covers all values |
| LogText.MinusClears | lib/mconf.c:148-151 | a minus and a name clear the priority of the name and no other, the name alone sets it and no other |
| LogText.FindsFirst | lib/mconf.c:138-144 | a name stands for its first entry in the table, and is unknown if it has none |
| LogText.PrintsEachOnce | lib/mconf.c:241-253 | what is printed are the first names of the priorities in the mask, in the order of the table, none twice |
| LogText.LengthIsUnsigned | lib/mconf.c:245-246 | the room is the length modulo 2^32, so a negative length is at least 2^31 |

## Left out

- RecvQueue.RecvQ.Recv: requires headers with a length of at least 4. The code relies on it: with less, it would write behind the packet or not end. For such a header the functions of `Framing`, and with them the session, simply stop cutting.
- RecvQueue.RecvQ.Recv: a chunk larger than the offered buffers is delivered in several calls; allocation failure does not occur.
- SendSpec.RunConserved: requires covered pulls, because it fails otherwise, as `InjectedTwiceQueuedNever` shows.
- SessionRuns.LosslessClose: speaks of the written bytes of pipes whose pulls were covered only, for the same reason.
- RecvQueue.PktNew: the bytes of a packet are a sequence in a field of the node, not an array behind it; the window refers to the node and an offset.
- Session.RfSession.Run: requires of the bytes read what `Recv` requires. Filters are a function of the direction, the position in it and the packet, which covers any filter on any one run. A callback may come whether or not its watcher is active, which allows more runs than libev does. A closed session takes no more steps; its destruction is only in `Ownership`.
- SessionRuns.Transparent: requires the same of the bytes read.
- Session.DelayedQueue.Pull: the delayed packets are a sequence of nodes with the state of their timers, not an intrusive list of `delayed_pkt`.
- Ownership.CountsAreOwners: takes the statements that touch references, not the conditions that choose between them; the references of events are counted only here, the others also in `OneOwner`.
- LootCommand.RfxLoot.DropsItem: the description of a packet and its `show` mark are display.
- Chat.Chain.Drain: the event queue is a sequence, on which appending and taking the first stand for `push_back` and `pop_front`; it is empty when its destructor runs. The events are those of one packet, with the packet as their source or none; the debug filter does nothing with them.
- ChatParse.Parse: a message that is not closed within its packet ends with the packet; the code reads on until a zero. The kinds of packets are in `ChatFilters`; packets too short for their fields are excluded there.
- Reload.Module.Reload: how a library is found, checked and opened is the answer it is given; the function pointer starts as NULL, which the constructor of the code leaves open. A filter's state is a value, and the library decides how it is saved.
- Sockets, `readv`, `writev`, libev, `dlopen` and files, except for their answers.
- Listening, connecting and starting up (`bootstrap`, `cli_connect_cb`, `make_listen_socket`, `main`), logging, dumps, packet descriptions and the `show` mark of packets outside the event queue: plumbing and display.
- `delayed_queue::add`, which nothing calls, and `need_reload`, which only decides when to reload.
- `fsave`, and the `+=` and `-=` of single ids, which nothing calls.
- The rest of lib/mconf.c, lib/ini.c, lib/misc.c, lib/sock.c, lib/daemonize.c, rfx_debug.cpp, the other lists of include/queue.h, include/ring_buffer.h and tools: not on the packet path, or easier than what is here.
