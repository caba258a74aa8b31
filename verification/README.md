# Verification model of adb_portScan

adb_portScan looks for the wireless-debugging port of Android devices on a local network: a pool of
threads tries every (target, port) pair in two timed passes, a small DNS reader discovers devices
that announce themselves, and a floating window runs both in the background. This project models the
logic of those parts and proves what they keep, for all inputs, schedules and byte sequences.

## What is modelled

**The two-pass scanner** (`src/scan.rs`).
`ScanMachine` is one pass as a transition system. Its state is the shared counters, the two locked
vectors, the two stop flags, the event log, and a program counter for every spawned worker and for
the spawning thread; one action is one atomic or locked operation. A schedule picks the actions, when
spawning fails, and when the caller cancels. Two ledgers that no step reads, `filings` and `places`,
record what became of each item and who answers for it. `Work.id` (an item's position in the first
pass) is likewise only there to name the item when the network is asked about it.

- `ScanInvariants`, `ScanStop`, `ScanEvents`: what every step keeps.
- `ScanTermination`, `ScanHalt`: how long a pass can run, and how soon it is over once stopped.
- `ScanSpent`, `ScanOrder`: in which order a pass can report its progress, and what that depends on.
  `ScanProgress`: the same for whole scans.
- `ScanRuns`: theorems about every run of a pass. `TwoPassScan`: about a whole scan, compared with
  `SequentialScan`, which tries the items one after the other, each a second time if it timed out.
- `ScanVerdict`: what a scan returns, told by kinds, targets, ports and network answers alone.
- `HitOrder`: the order of the returned list, as the sort keys give it and in plain terms.
- `Scanner`: the program as written, a class whose fields the worker steps and `Run` update. `Run` is
  proved to end, to be one of the scans that `IsScan` describes, and so to deliver all of the above.

The answers of the network are two arbitrary functions of (pass, item), one for the connect outcome
and one for the probe verdict.

**Device discovery** (`src/mdns.rs`).
`DnsName` gives names in a message a meaning without any budget (a walk along labels and pointers) and
relates the reader to it; `DnsCursor` is the reader itself. `DnsMessage` covers whole messages and
their wire form (sections 4.1.1 to 4.1.4 of RFC 1035, SRV of RFC 2782, AAAA of section 2.2 of
RFC 3596). `Discovery` says what the tables hold after any sequence of records, and which services
that makes; `Mdns` is the code that fills the tables in place. `DnsQuery` is the query (with the
unicast-response bit of section 5.4 of RFC 6762), read back. `Utf8` is the well-formedness test on
bytes, and what it accepts. `KnownAdvert` is one advertisement byte by byte with its answer.

**Three smaller parts.** `Cidr` expands IPv4 blocks in 32-bit words (`src/target.rs`, section 3.1 of
RFC 4632), over the bit operations of `Bits`. `Threads` sizes the pool (`src/threads.rs`).
`UiProtocol` is the window's background-job protocol over its FIFO channel (`src/gui.rs`), and `UiScan` the
window in use, with the event streams and hits of real scans coming through that channel. `UiShown`
tells what it shows from the events of its history alone; `UiProgress` and `UiStop` are about the
progress it shows and its stop button.

`Sequences` holds facts about lists that several modules share, among them the stable sort that
stands for `sort_by_key`. `Net` holds addresses and targets.

## Where the code and its comments differ

The model follows the code.

- `src/threads.rs:30` promises that chosen threads times stack size stay within 70% of the memory.
  The code bounds the count with the stack size of the count before clamping, but uses the stack size
  of the count after it. `Threads.SeventyPercentRule` gives the exact condition on cores, memory and
  work under which the promise fails, and `Threads.FinalStackRuleFails` an input for which it does.
- `src/mdns.rs:102` says that the second duplicate check prevents different instance names for one
  device, port and address. Its key contains the instance name, so it never rejects anything
  (`Mdns.Tables.Report`). `Discovery.SharedEndpointsAreNotMerged` says exactly when two services at
  one endpoint are reported, and `Mdns.OneEndpointTwice` gives a datagram for which they are.
- `src/gui.rs:314-315` shows the last progress event as the progress so far. The count shown can go
  back, for two reasons. The second pass counts from zero again, and the window does not look at the
  pass of an event: some network and schedule make the count of one scan fall exactly if it has 10000
  items, whatever its threads (`UiProgress.ShownProgressFallsBack`). And within one pass a worker that
  has counted the 5000th item can be overtaken before it reports:
  for given items and network exactly if the pass is `Overtakable` (`ScanOrder.ProgressRunsBackwards`),
  for a given configuration and some network exactly with two threads and 10000 items
  (`ScanOrder.SomeProgressRunsBackwards`).
- `src/target.rs:110` has a branch for mask 0, which the size limit above it has already rejected;
  `Cidr.ParseCidr` proves it dead and does not repeat it.

## Model

| member | source | states |
|---|---|---|
| ScanInvariants.InvNext | src/scan.rs:418-473 | Every operation keeps the invariant: each claimed index is held by one worker or filed once, the two vectors hold exactly what was filed and agree with the network, the flag has an ADB hit behind it, and the counters tally |
| ScanInvariants.OwnershipNext | src/scan.rs:422-462 | Claiming takes an index nobody holds; disposing of one makes its holder let go; no step loses or doubles an index |
| ScanInvariants.CountersNext | src/scan.rs:419-462 | The shared counter overruns the list only by departed workers, nobody leaves without a reason, and the scanned count lags the filings by exactly the workers that have not counted yet |
| ScanStop.StopDisciplineNext | src/scan.rs:438-457 | Every operation keeps: a worker that recorded a scan-ending hit, or any hit after the flag rose, records nothing more; whoever raises the flag has recorded an ADB hit |
| ScanStop.LateHitsBounded | src/scan.rs:438-457 | With the flag up, the hits recorded late number at most workers - 1 |
| ScanStop.AdbHitsBounded | src/scan.rs:452-456 | With stop-on-first a pass records at most one ADB hit per worker |
| ScanEvents.EventsAgreeNext | src/scan.rs:444-472 | Every operation keeps: PortHit events are the recorded hits plus those between announcement and recording; each multiple of 5000 counted so far was reported once or is about to be; no foreign events |
| ScanTermination.MeasureDescends | src/scan.rs:406-491 | Every action of every schedule lowers a measure |
| ScanTermination.NeverStuck | src/scan.rs:418-491 | Until the join, somebody other than the canceller can act |
| ScanTermination.SchedulesAreBounded | src/scan.rs:406-491 | A schedule has at most 15 actions per item, 4 per thread and 3 more |
| ScanHalt.HaltedNext | src/scan.rs:259-261 | After a stop or cancel, claims made plus claims still possible never grow, nor do hits recorded, hits announced or items counted plus those still possible, and each action uses up one of the remaining ones |
| ScanHalt.HaltIsPrompt | src/scan.rs:418-473 | From a stop or cancel on, only workers already past the tests claim, announce, record or count anything, each once more at most, and the pass is over within 15 actions per thread and 3 more, however much work is left |
| ScanHalt.FewProbesAfterHalt | src/scan.rs:438-443 | From a stop or cancel on only workers already past the tests in front of the probe begin one, each one at most |
| ScanSpent.SpentNext | src/scan.rs:437-457 | Every operation keeps: a worker files at most one item that would stop the scan, and is raising the flag or leaving after it |
| ScanSpent.StopsBelow | src/scan.rs:422-457 | The claimed items that would stop the scan number at most the workers, less any set of workers that own none of them |
| ScanSpent.InFlightNext | src/scan.rs:422-462 | Every operation keeps: claimed items are counted or in hand of one worker each |
| ScanOrder.ProgressInOrder | src/scan.rs:462-472 | A pass that is not overtakable, in particular one with one thread or fewer than 10000 items, reports its progress in ascending order under every schedule, stopped and cancelled ones included |
| ScanOrder.Overtaking | src/scan.rs:418-472 | In every overtakable pass, items that stop the scan included, some schedule reports 10000 before 5000 |
| ScanOrder.ProgressRunsBackwards | src/scan.rs:418-472 | For any items, network and thread count: progress can be reported out of order exactly if there are 10000 items and, of the first 9999, those that would stop the scan number at most the threads less two (less one with more than 5000 threads) |
| ScanOrder.SomeProgressRunsBackwards | src/scan.rs:418-472 | For any configuration and items of a pass: some network and schedule report progress out of order exactly with at least two threads and 10000 items |
| ScanRuns.EveryStateIsGood | src/scan.rs:385-492 | All invariants hold in every state of every run, cancelled or not |
| ScanRuns.ClaimedItemsAreOwnedOnce | src/scan.rs:422-462 | In every reachable state an index is below the claim counter exactly if one worker holds it or one filing disposes of it, never both, never two of either |
| ScanRuns.CounterIsBounded | src/scan.rs:422-425 | The claim counter never exceeds the number of items plus the workers spawned |
| ScanRuns.EveryStateIsSound | src/scan.rs:430-460 | Whatever happened, a pass has invented no hit and left pending no item that did not time out |
| ScanRuns.PendingIsTimedOut | src/scan.rs:430-436 | Whatever happened, the first pass leaves pending exactly one item for each filed index whose connect timed out, in the order of filing |
| ScanRuns.FreeRunFilesEverything | src/scan.rs:489-491 | Joined with a worker and neither stop nor cancel, every index was claimed, filed and counted, once |
| ScanRuns.FreeRunIsASweep | src/scan.rs:418-473 | Such a pass records, as a multiset, what a sequential sweep records, and leaves pending exactly the timed-out items |
| ScanRuns.FewHitsAfterFlag | src/scan.rs:438-457 | Once up the flag stays up, and at most workers - 1 further hits of any kind follow |
| ScanRuns.OneAdbHitPerWorker | src/scan.rs:444-456 | With stop-on-first no two recorded ADB hits of a pass are by the same worker |
| ScanRuns.JoinedEvents | src/scan.rs:444-472 | At the join PortHit events equal recorded hits, each multiple of 5000 up to the scanned count was reported once, and the scanned count is the number of filings |
| ScanRuns.JoinedNotice | src/scan.rs:479-488 | A joined pass has given the thread notice once, with the configured and the actual number, exactly if they differ |
| ScanRuns.WorkerCounts | src/scan.rs:398-478 | A pass can come to have any number of workers up to the configured one, capped by the items and never below one, and no other |
| ScanRuns.JoinedWithoutFlag | src/scan.rs:452-456 | Under stop-on-first, a pass joined with the flag down recorded no ADB hit |
| ScanRuns.FlagByKind | src/scan.rs:444-456 | By the kinds themselves: the flag is up only under stop-on-first with verification and behind a recorded Plain or Tls hit; a joined stop-on-first pass with the flag down has only Open hits; without verification there are no others |
| TwoPassScan.WorkListAt | src/scan.rs:267-277 | Work index i is target i div ports and port number i mod ports |
| TwoPassScan.SecondPassStartsUnstopped | src/scan.rs:319-336 | Whenever the second pass starts, the flag shared with the first is down |
| TwoPassScan.ScansAreSound | src/scan.rs:301-336 | Both passes of every scan end joined, with all invariants, the second one though it inherits the first one's flag |
| TwoPassScan.TwoSweeps | src/scan.rs:311-336 | Sweeping all items and then the timed-out ones finds what trying each item by itself finds |
| TwoPassScan.ScanRefinesSequentialScan | src/scan.rs:266-363 | If nobody cancels and each pass has a worker, every interleaving with any number of workers finds the hits of the sequential scan, in the same sequence of sort keys once sorted, unless stop-on-first has an ADB hit to stop at |
| TwoPassScan.StoppingCostsNoVerdict | src/scan.rs:438-457 | If nobody cancelled and each pass had a worker, an ADB hit is returned exactly if the sequential scan has one, and nothing at all is missing unless stop-on-first met such a hit |
| TwoPassScan.NoInventedHits | src/scan.rs:418-473 | Stopped, cancelled or starved, a scan returns no hit that the sequential scan does not, nor one more often |
| TwoPassScan.FewAdbHits | src/scan.rs:319-336 | With stop-on-first a whole scan records at most max(1, threads) ADB hits |
| TwoPassScan.ScanLogAgrees | src/scan.rs:286-351 | The event stream: it begins with the only pass-1 header, counting targets times ports; PortHit events are the returned hits; one pass-2 header exactly if items were left pending, with their number and the right kind and reason; first-pass events before it, second-pass events after it |
| TwoPassScan.HeaderCountsTimeouts | src/scan.rs:311-350 | The number in the pass-2 header is that of the filed first-pass indices whose connect timed out, stopped and cancelled scans included |
| TwoPassScan.ScanLogProgress | src/scan.rs:462-472 | In the whole stream each pass reports each multiple of 5000 up to its own scanned count exactly once, with its own total |
| ScanVerdict.SequentialScanFinds | src/scan.rs:267-336 | The sequential scan finds a hit exactly if some port number of some target number accepts in pass 1, or times out there and accepts in pass 2, with that target, port and the probe's verdict (Open without verification) |
| ScanVerdict.SecondPassByKind | src/scan.rs:312-351 | By the kinds themselves: a Plain or Tls hit under stop-on-first rules the second pass out; otherwise pending items and the cancel flag decide; and the header follows |
| ScanVerdict.ScanTells | src/scan.rs:266-363 | What any scan returns: only hits that are there; all of them, unless cancelled, unmanned or stopped by one; a Plain or Tls hit whenever there is one; under stop-on-first no more of these than threads; without verification only Open ones |
| ScanProgress.SlowScanFallsBack | src/scan.rs:319-336 | Where everything times out in the first pass, some scan of 10000 items, with any thread count, reports 10000 and later, in its second pass, 5000 |
| ScanProgress.ShortScanReports | src/scan.rs:462-472 | With fewer than 10000 items no scan reports any count but 5000, in either pass |
| ScanProgress.ScanProgressFallsBack | src/scan.rs:266-363 | For any configuration: in the stream of some scan a later progress event counts less than an earlier one exactly if there are 10000 items |
| HitOrder.KeyOrder | src/scan.rs:354-361 | (kind, display, port) is a total order, text compared character by character |
| HitOrder.SortedIsReturnOrder | src/scan.rs:354-361 | In a sorted list Plain hits come before Tls hits before Open ones, within a kind display texts ascend by their first difference, within a text ports |
| HitOrder.SortedKeysAgree | src/scan.rs:353-362 | Sorting any two arrangements of the same hits gives the same sequence of keys |
| Scanner.Scanner.Advance | src/scan.rs:418-473 | The worker loop body, operation by operation, has exactly the effect of the transition system and only appends to the log |
| Scanner.Scanner.Act | src/scan.rs:406-491 | Whatever a thread of the pass or the caller does next is an enabled action with exactly its effect |
| Scanner.Scanner.Pass | src/scan.rs:385-492 | A pass ends, joined, at the end of some run of the transition system from fresh counters |
| Scanner.Scanner.FirstPass | src/scan.rs:286-309 | The first pass over all work is announced and leaves hits, pending and log as some run of it does |
| Scanner.Scanner.SecondPass | src/scan.rs:311-351 | The decision and the second pass extend any first pass to a whole scan, and log its header and events |
| Scanner.Scanner.Run | src/scan.rs:266-363 | An empty or already cancelled scan returns nothing and emits nothing; any other is some scan, returns its hits sorted, emits its stream and delivers what SortedResult states |
| Scanner.SortedResult | src/scan.rs:353-362 | The returned list is sorted, in the order just said and with what ScanTells says, within the sequential scan, equal to it when undisturbed (also in its keys), has an ADB hit exactly when due, matches the PortHit events, and respects the stop-on-first bound |
| DnsName.NameReadIffSpelled | src/mdns.rs:195-238 | A text is read exactly if a walk of at most 100 offsets, over valid labels and pointers to a terminator, spells it |
| DnsName.WalksAreSimple | src/mdns.rs:214-224 | A walk visits no offset twice |
| DnsName.CyclesAreRejected | src/mdns.rs:199-224 | A chain of offsets that returns to one of its own is rejected under every budget |
| DnsName.CompressionPreservesMeaning | src/mdns.rs:207-237 | Labels followed by a pointer read as the labels followed by the name pointed to, exactly if all steps fit the budget; the cursor ends behind the pointer whatever it points to |
| DnsName.PlainIsDecoded | src/mdns.rs:207-237 | Written labels with a terminator are read back whole exactly if they are fewer than the budget |
| DnsName.PointerBytes | src/mdns.rs:214-218 | The pointer test admits exactly 192 to 255, and the mask keeps the value modulo 64 |
| DnsName.NodeByNumbers | src/mdns.rs:202-231 | What stands at an offset in numbers: 0 ends the name, 192 and above with the next byte is a pointer to (first - 192) * 256 + next, anything between is the length of a label |
| DnsName.DecodeAdvances | src/mdns.rs:207-221 | A successful read moves the cursor forward and leaves it inside the buffer |
| DnsCursor.Cursor.ReadName | src/mdns.rs:195-238 | The loop yields the name of the specification and leaves the cursor behind the terminator or first pointer, which it may do and still fail |
| DnsCursor.Cursor.Slice | src/mdns.rs:179-186 | Takes the next n bytes, or nothing and stays |
| DnsCursor.Cursor.ReadU16 | src/mdns.rs:175-178 | Reads a big-endian word, or nothing and stays |
| DnsCursor.Cursor.Skip | src/mdns.rs:187-193 | Moves on exactly if the bytes are there |
| DnsMessage.RecordsTakeSpace | src/mdns.rs:265-274 | A readable record takes at least 11 bytes and ends inside the buffer |
| DnsMessage.FactsByNumbers | src/mdns.rs:276-322 | What each record type contributes, in type numbers, lengths and bytes, and that nothing else contributes |
| DnsMessage.RecordsFit | src/mdns.rs:265-325 | The records read are no more than asked for or than fit, and reading is complete exactly if all were read |
| DnsMessage.MessageWorkIsBounded | src/mdns.rs:247-325 | On arbitrary bytes at most (len - 12) / 11 records are processed, whatever the header claims |
| DnsMessage.RecordIsRead | src/mdns.rs:265-323 | A record in wire form, names plain or compressed, is read back as what it means, to its last byte |
| DnsMessage.MessageRoundTrip | src/mdns.rs:241-326 | A message in wire form is read completely, its records in order across all sections, unknown types skipped |
| Discovery.LinkLocalPrefix | src/mdns.rs:139-141 | The mask test is the fe80::/10 prefix |
| Discovery.SortedByPreference | src/mdns.rs:129-137 | Sorting by preference is the three preference classes one after the other, each in arrival order |
| Discovery.PreferredByFamily | src/mdns.rs:121-141 | The addresses kept for a host are those that arrived, each once: the IPv4 ones, then the IPv6 ones outside fe80::/10, then those inside, each in arrival order |
| Discovery.OfferedAddress | src/mdns.rs:16-21 | The address offered for a connection is IPv4 exactly if the SRV's target advertised any, and link-local only if it advertised nothing else |
| Discovery.LastServiceIsLast | src/mdns.rs:292-304 | The SRV that counts is that of the last SRV record of the name |
| Discovery.KeepIsPreferred | src/mdns.rs:121-127 | Adding one address to a kept list gives the stable sort of the first occurrences of all arrivals |
| Discovery.TablesHold | src/mdns.rs:276-322 | After any records the tables hold all matching PTRs in order, the last SRV of each name, and per host the preference order of its distinct addresses |
| Discovery.BestAddressFirst | src/mdns.rs:16-21 | The first address of a host is of the best class advertised for it |
| Discovery.JoinIsExact | src/mdns.rs:92-117 | A service is reported exactly if its PTR, SRV and a nonempty address list are known, with ip the first address; services come in the order in which their PTRs first arrived, none twice |
| Discovery.ReportedIffAdvertised | src/mdns.rs:65-117 | From the records alone: a service is reported exactly if its PTR came, its port is that of the instance's last SRV, and its addresses are all that came for the SRV's target, each once, by family and then by arrival |
| Discovery.SharedEndpointsAreNotMerged | src/mdns.rs:97-105 | Two reported services differ in their instance and agree in kind, port and address exactly if the records hold PTRs of two instances of one kind whose last SRVs name the same port and whose targets' preferred addresses begin alike |
| Discovery.ReplayIsInvisible | src/mdns.rs:92-127 | Repeating any stretch of records at once changes no reported service |
| Mdns.Tables.PushAddr | src/mdns.rs:121-127 | The in-place insertion and sort is the specified update of one host's list |
| Mdns.Tables.PushPtr | src/mdns.rs:283-290 | A PTR is remembered, under the first service type its name matches, or not at all |
| Mdns.Tables.TakeRecord | src/mdns.rs:265-323 | One record is read, learnt and left behind, or nothing is learnt |
| Mdns.Tables.ParseMessage | src/mdns.rs:241-326 | On arbitrary bytes the tables end as the fold of exactly the completed records, and success is reported exactly if all were completed |
| Mdns.Tables.RetainFirstPtrs | src/mdns.rs:92-94 | Repeated PTRs go, the first of each stays in place |
| Mdns.Tables.Report | src/mdns.rs:96-117 | The join loop yields the specified services, and its own duplicate check never rejects one |
| Mdns.Discover | src/mdns.rs:65-117 | The reported services are those of all records that could be read from the datagrams, in order |
| Mdns.DiscoveryIsExact | src/mdns.rs:65-117 | Over arbitrary datagrams a service is reported exactly if the records that could be read advertise it |
| Mdns.MessagesAreUnderstood | src/mdns.rs:84-90 | From messages in wire form discovery learns exactly what they say, whatever their compression |
| Mdns.OneEndpointTwice | src/mdns.rs:97-105 | A datagram after which two instances are reported at one endpoint, through SRVs with different targets |
| Mdns.ReceivingAgainChangesNothing | src/mdns.rs:84-117 | Receiving any run of datagrams (one, or all) twice in a row leaves the reported services unchanged |
| KnownAdvert.KnownAnswer | src/mdns.rs:65-326 | A datagram of 109 given bytes, with compressed names and fe80::1 before 192.168.1.42, makes discovery report just that one service, IPv4 first |
| DnsQuery.BuildQuery | src/mdns.rs:149-167 | The query is the header, one frame for each nonempty piece of the name, a terminator, type and class |
| DnsQuery.QueryIsWireForm | src/mdns.rs:149-167 | The query is the wire form of a message with id and flags 0, one question of type 12 and class 0x8001, and no records |
| DnsQuery.LegacyQueryBytes | src/mdns.rs:43-63 | The query for _adb._tcp.local, byte by byte |
| DnsQuery.SplitThenJoin | src/mdns.rs:156-162 | Joining the pieces of a name with dots gives the name back |
| DnsQuery.QueryIsReadBack | src/mdns.rs:149-238 | It begins with the header of a standard query; read at offset 12 it gives the name without its empty pieces, exactly if at most 99 remain; type 12 and class 0x8001 follow to the end, and the message is complete |
| DnsQuery.ProperNameIsReadBack | src/mdns.rs:149-238 | Without empty pieces the name read back is the name asked for |
| DnsQuery.SentQueriesReadBack | src/mdns.rs:43-63 | Each of the three queries that are sent is a standard query of one question that reads back as its own service type, and answers under that name are recognised as connect, pairing and legacy |
| DnsQuery.KindsByName | src/mdns.rs:43-47 | What each of the three service types stands for |
| DnsQuery.CaseIsIgnored | src/mdns.rs:284-288 | Service types are recognised letter by letter, A to Z and a to z alike |
| Utf8.AsciiIsValid | src/mdns.rs:231 | Bytes below 0x80 are always text |
| Utf8.ValidAroundAscii | src/mdns.rs:156-162 | Splitting valid text at an ASCII byte leaves valid text on both sides |
| Utf8.ValidIffEncoded | src/mdns.rs:231 | Bytes are accepted exactly if they encode some sequence of Unicode scalar values |
| Cidr.ParseCidr | src/target.rs:96-128 | Succeeds exactly for IPv4 and masks 16 to 32, with the block of the address; the errors as the code gives them |
| Cidr.BaseIsBlockStart | src/target.rs:110-114 | Masking with the shifted word clears exactly the host bits |
| Cidr.BlockFits | src/target.rs:116-117 | No address of a block leaves the 32-bit word, so the wrapping addition never wraps |
| Cidr.BlockIsExact | src/target.rs:115-124 | A block lists, strictly ascending, exactly the addresses sharing the leading bits, the given one among them; each target has no zone and a display that reads back as its address |
| Cidr.DigitsAreCanonical | src/target.rs:121 | The numbers of a display are digits without leading zeros |
| Cidr.KnownQuad | src/target.rs:121 | The display of one address, letter by letter |
| Cidr.MembersRegenerateBlock | src/target.rs:96-125 | Any member of a block gives the same list |
| Cidr.BlocksNestOrAreDisjoint | src/target.rs:96-125 | The block with the longer mask lies inside the other or shares nothing with it |
| Threads.AutoThreads | src/threads.rs:32-62 | Chooses between 1 and min(65535, max(1, work)), and the largest count whose stacks, at the size used before clamping, fit the budget |
| Threads.DecisionIsUnique | src/threads.rs:41-52 | That description leaves no choice |
| Threads.ChoiceInNumbers | src/threads.rs:10-52 | The choice in numbers: 100 threads per core, at most the work items and 65535, of these as many as have stacks of 256 KiB (above 2000 threads) or 1 MiB within 70% of the available memory, at least one |
| Threads.SmallMachine | src/threads.rs:41-53 | Eight cores, 512 MB and plenty of work make 358 threads of 1 MiB |
| Threads.BudgetIsModest | src/threads.rs:47 | The budget is at most 70% of the memory, and exactly that, rounded down, while the product stays in the word |
| Threads.FinalStackRule | src/threads.rs:41-53 | At the final stack size the choice overruns the budget exactly if, before the call, the budget is below one stack of the unclamped count, or that count is above 2000 and the budget below 2001 small stacks |
| Threads.OverrunIsByClamping | src/threads.rs:41-53 | The same seen from the choice: no room for one stack, or memory moves the count from above 2000 to 2000 or below, and in the latter case by at most four times |
| Threads.SeventyPercentRule | src/threads.rs:27-53 | For every amount of memory, also where the product leaves 64 bits, the choice exceeds 70% of the memory exactly under that condition on 70% of the memory |
| Threads.FinalStackRuleFails | src/threads.rs:30 | An input for which the 70% rule of the comment fails |
| UiProtocol.UiInvNext | src/gui.rs:190-352 | Every event keeps: the queue holds what the running or finished job can have sent, the flags agree with the status, and messages are handled in the order of their scans |
| UiProtocol.JobProtocol | src/gui.rs:222-352 | In every reachable state port-busy, a cancel token and a start time go together, progress implies port-busy, busy means exactly one completion still to come, a scan about to start is not cancelled yet, and no event of a scan is handled after its end |
| UiProtocol.DrainedWindow | src/gui.rs:300-352 | Handling all that is queued handles it in order, keeps the invariant, and leaves the window busy exactly if a job has still to report |
| UiProtocol.DrainedResults | src/gui.rs:303-343 | After that the window shows the results of the job that had finished |
| UiProtocol.App.StartMdnsScan | src/gui.rs:190-206 | Starts a discovery, or nothing while busy |
| UiProtocol.App.StartPortScan | src/gui.rs:222-269 | Starts a scan with a fresh token; a bad port range only sets the message; nothing while busy |
| UiProtocol.App.PressStop | src/gui.rs:470-475 | Cancels the token of the current scan, if there is one |
| UiProtocol.App.HandleMessage | src/gui.rs:302-350 | Handles the oldest message as specified |
| UiProtocol.App.PollMessages | src/gui.rs:300-352 | Handles messages until none is queued |
| UiProtocol.App.ReportServices | src/gui.rs:198-205 | The discovery job sends its services and is over |
| UiProtocol.App.ReportEvent | src/gui.rs:260-262 | The scan job passes an event on |
| UiProtocol.App.ReportEnd | src/gui.rs:263-267 | The scan job sends its hits and is over |
| UiScan.ScanJob | src/gui.rs:248-267 | What a scan job sends is the event stream and the sorted hits of one scan, or nothing |
| UiScan.ProducedHits | src/scan.rs:369-383 | The PortHit events among what a scan job sends are its hits |
| UiScan.FedNext | src/gui.rs:222-352 | Every event keeps: each scan has sent a prefix of its stream, all of it once its end is sent, and the hits shown are those of the last finished scan |
| UiScan.ShownHitsWereAnnounced | src/gui.rs:248-352 | At every moment the window has handled a prefix of each scan's events, all once it has finished; and whenever no scan is running the PortHit events handled for the last scan are exactly the hits shown |
| UiScan.Live | src/gui.rs:154-352 | Whatever the user, the message loop and the background threads do from the window's opening on, in any order, is a history of that kind |
| UiShown.ChannelIsFifo | src/gui.rs:198-301 | The messages handled and queued are those that the events have sent, in that order, none lost or added |
| UiShown.ShownServicesWereReported | src/gui.rs:190-312 | No services are shown while a discovery runs, otherwise just what the last one reported, as the argument of its report; a report that waits is as it was made |
| UiShown.EveryDiscoveryReports | src/gui.rs:190-206 | Every discovery that was started has reported, but a running one |
| UiShown.ShownServicesWereDiscovered | src/gui.rs:198-305 | Whenever no discovery runs, the services shown are those that the last one started discovered in the datagrams it received |
| UiShown.ScansAreCounted | src/gui.rs:222-237 | Scans are numbered by their starts; a token is set exactly if stop was pressed while its scan ran; no hits are shown while a scan runs |
| UiShown.LastNoticeIsShown | src/gui.rs:226-349 | The notice shown is the last rejected port range or handled toast |
| UiProgress.ShowsLastNext | src/gui.rs:313-316 | Every event keeps: while a scan runs the window shows the last progress event handled for it, of whichever pass |
| UiProgress.ShownProgressFallsBack | src/gui.rs:313-316 | For any configuration: in some history of the window, with scans of that configuration behind it, the count shown for one scan falls exactly if there are 10000 items |
| UiStop.CancelledScan | src/scan.rs:259-336 | A scan whose token is set at some moment of a pass announces at most one hit per thread after it, and starts no second pass if that was the first |
| UiStop.PressingStopIsFelt | src/gui.rs:470-475 | Once stop is pressed for a running scan, the PortHit events the window ever handles for it are those emitted by then and at most one more per thread |

## Left out

- Sockets, timeouts and clocks: connect outcomes and probe verdicts are given functions, `discover` is given the datagrams it receives (each at most 4096 bytes in the program), and timeouts and durations in events and messages are dropped.
- Memory ordering: the atomics are sequentially consistent here; the program uses relaxed ordering.
- Panics: callbacks and workers do not panic and no lock is poisoned. The 70% product can leave 64 bits for absurd memory sizes; it wraps here, where a build with overflow checks would panic.
- Word size: `usize` counters are unbounded in the scanner and the cursor, and 64 bits in `Threads`.
- `Vec::sort_by_key` is represented by the function `StableSort`; that the library's sort is a stable sort is taken for granted.
- `str::from_utf8`, `str::split`, `eq_ignore_ascii_case` and the decimal display of addresses are defined as functions on bytes and characters (texts compare by code point, which is the byte order of UTF-8); `Ipv6Addr` values are their sixteen octets.
- `run_streaming`, the configuration builder, thread names and stack sizes of workers: forwarding and assignment.
- A scan's network answers depend on the pass and the item only, not on when or by whom the item is tried.
- The probe is one step of a worker; without verification the step does nothing.
- Literal and hostname targets, IPv6 zones and the parsing of the host part of a CIDR target: standard-library parsing and resolver calls; `ParseCidr` starts from the parsed address.
- `src/detect.rs`, `src/ports.rs`, `src/cli.rs`, `src/error.rs`, `src/platform.rs`: packet constants, one port list, argument parsing, messages, system calls.
- Rendering, themes, log lines, elapsed times, the set of expanded rows and the `adb` subprocess of `src/gui.rs`; the port-range text is given as already parsed or rejected.
- Scan messages in `UiProtocol` carry the number of their scan so that stale ones could be recognised; no step of the window reads it.
- The window and the scanner do not share one state: `UiScan` takes a scan job's output from any scan, and `UiStop` names the moment of the pass at which pressing stop sets its token.
- A panic in a background job of the window, after which no completion would ever come.
