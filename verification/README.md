# Verification of the port scanner, the JSON readers, the chunked decoder and the verdict

This project models the parts of the repository where a mistake would go unnoticed longest and proves what they keep.
`dafny verify dfyconfig.toml` checks all of it.

**The port-scan engine** (`src/network/tcp_async_scan.cpp`). `ScanLedger` is the accounting that the epoll, IOCP and raw
SYN scanners share: a ledger of ports, connections in flight and counters, moved by four kinds of events. Each scanner
(`EpollWorker`, `IocpWorker`, `SynScanner`) is imperative code over the mutable locals of the C++ function
(`ScanBooks.Books`, `IocpWorker.Sockets`) and is proved to be a run of ledger events, so that what holds of every run
holds of every scanner; and the run is proved to be what the kernel answered, one launch or one turn of the loop after
another, each at ticks of its own and in the state the run has then reached (`ScanLedger.Explains`).
`ThreadPool` and `ScanSystem` are step relations for every interleaving of pool threads, and of workers, collector,
watchdog and user; `ScanProgress` bounds the steps of a scan. `Readings` is what a kernel said of a port, uninterpreted,
and what the counters must make of it; `EpollMeaning`, `IocpMeaning` and `SynMeaning` prove that over every run they do.
`ScanTcp` follows a scan from the ports asked for to the statistics, with the workers' runs behind the answer
(`ScanRuns`). `SrcPorts` is the source-port allocator, `SynCredits` says whom a received segment is credited to,
`Checksum` and `SynPacket` are the probe's checksums, `Sharding` is the split over workers.

**The two JSON readers.** `StrictJson` is the recogniser of `src/analysis/ct_check.cpp`, proved sound and complete
against `JsonGrammar`, which only renders syntax trees. `LenientJson`, `Unescape` and `FindKey` are the tree builder, the
escape decoder and the key search of `src/core/utils.cpp`; `Utf8` is section 3 of RFC 3629. `JsonAgreement` compares the
two readers, on the characters of `JsonAlphabet`. `JsonMeaning` and `FindMeaning` say what tree a JSON text gets and
what the key search finds in it, of the text itself. `LenientRun` runs the tree builder's loops a bounded number of steps, and `JsonTermination` says for every
input whether some number of steps is enough.

**The chunked decoder** (`Chunked`, `ChunkedProof`) of `src/network/http_client.cpp`.

**The verdict pipeline** (`J3`, `Brand`, `BrandTable`, `Sni`, `Verdict`, `VerdictProof`): probe analysis, certificate
classification, and the score, label, stack and tier that `src/cli/orchestrator.cpp` derives from the reports.
`CertMeaning` and `VerdictMeaning` say what the findings, signals, score, flags and tier stand for, of the names, texts
and reports themselves.

## The environment

System calls, the clock and the stop flag are functions of a tick that every call moves on (`Kernel`), so any sequence of
answers is some kernel. What is assumed of it is `Kernel.Sane` (the clock never runs backwards, a stop flag that is up
stays up, `socket()` returns no descriptor that is open) and, only for termination, `Kernel.Advances` (the clock passes
every bound; a clock that gains a millisecond in every iteration that starts and finishes nothing does). One batch of
reports from `epoll_wait`, and one run of `recvfrom` calls until the socket is empty, is a finite list, so the SYN
scanner's receive loop ends because packets do not arrive faster than it reads them. The collector's loop in `ScanTcp`
needs every future to become ready in the end (`ScanTcp.Poll.Settles`); `ScanProgress` shows that it does whenever steps
that can be taken are: until all futures are taken there is one, and there are only so many. IOCP connections carry
fresh numbers where the code keys them by the address of their OVERLAPPED block. A scanner needs room for at least one connection in
flight; `Sharding.Plan` gives each worker room for 64.

## What the proofs found

- `JSON::parse` does not return on every input: on `[}` and `{]`, whatever follows, no number of steps is enough
  (`LenientRun.MismatchedCloserNeverReturns`). It returns exactly when a single pass with a stack of open brackets meets
  no closing bracket of the other kind where an item or a key is due (`JsonTermination.ReturnsExactly`).
- The tree builder and the recogniser count the items of an accepted array text alike exactly when its brackets do not
  hold blanks alone; on `[ ]` one counts 1 and the other 0 (`JsonAgreement.ArrayTextAgrees`,
  `JsonAgreement.BlankBracketsDisagree`).
- `send_syn_packet` stores both checksums in host order. On a little-endian host a header verifies exactly when its words
  sum to a multiple of 257 (`SynPacket.ProbeAccepted`); in the frame handed to `sendto` from 10.0.0.1 port 40000 to 10.0.0.2
  port 80 with sequence number 0 neither does (`SynPacket.RejectedProbe`). Linux fills in the IP checksum of a raw packet
  itself on the way out (raw(7)), so it is the TCP checksum that reaches the receiver as stored.
- The SYN scanner looks a segment up by the port it was sent to, and compares neither the port it came from nor the
  acknowledgement number. Every probe settled by a batch of packets is settled by the port it asked exactly when the first
  segment to each pending source port comes from there (`SynCredits.CreditedToTheSender`), and the ports reported open are
  those that answered exactly when this holds of the segments with SYN and ACK (`SynCredits.OpenAsAnswered`); on one frame
  from port 81 it reports port 80 open (`SynCredits.WrongPortReported`).
- It takes 19999 pending ports, not 20000, to exhaust the source-port allocator: the cursor values 60000 and 0 stand for
  the same port (`SrcPorts.PortCount`, `SrcPorts.EnoughPorts`). The scanner's bound of 4000 is far below.
- The watchdog loads the progress counter and judges it later. When it judges within the limit of the load and raises the
  flag, no worker told of progress for longer than the limit exactly when the counter is still what was loaded
  (`ScanSystem.WatchdogIsRight`). It can raise the flag in the very millisecond of progress
  (`ScanSystem.WatchdogCanBeHasty`); a judgement later than the limit can be right although the counter has grown
  (`ScanSystem.WatchdogCanBeLate`).
- The label can be CLEAN under an immediate block, exactly when one port is an open proxy without any other signal, every
  other port is without signals, and no UDP handshake that costs anything was answered (`VerdictProof.CleanYetBlocked`);
  one SOCKS5 port is such a host (`VerdictProof.LoneProxyIsClean`).
- A pool without workers never runs its tasks, and its destructor still returns (`ThreadPool.AllRanOnce`).
- The statistics' scanned is open plus failures except exactly when some port was asked for, the target does not resolve
  and no half-open scan came first: then every port counts as a failure and none as scanned, and the scan is not called
  skipped (`ScanTcp.ScanTcpAsync`, `ScanTcp.ScanOffline`).

## Model

| member | source | states |
|---|---|---|
| ScanLedger.EventConserves | src/network/tcp_async_scan.cpp:199-252 | whatever one event does, the ports started are, with multiplicity, those open, those counted closed and those in flight, and the failure counters are the size of the closed ones |
| ScanLedger.ApplyInv | src/network/tcp_async_scan.cpp:254-312 | every event keeps next_idx = scanned + in flight, in flight <= limit, scanned = open + timeouts + refused + other, and conservation of ports |
| ScanLedger.Conservation | src/network/tcp_async_scan.cpp:254-312 | after any run of events no started port is lost and none is counted twice |
| ScanLedger.Outcome | src/network/tcp_async_scan.cpp:254-321 | after any run the counters add up, open ports are a sub-multiset of the ports asked for, and a run with nothing left to start or wait for has scanned them all |
| ScanLedger.LaunchedThenFinished | src/network/tcp_async_scan.cpp:401-409 | over any run each launch of a connection is matched by one finish or is still in flight |
| ScanLedger.StepsApart | src/network/tcp_async_scan.cpp:254-312 | of two steps that explain a run the later one asked the kernel only after the earlier one was done, so no answer of the kernel accounts for two launches or turns |
| ScanLedger.GiveUpCounts | src/network/tcp_async_scan.cpp:187-192 | giving up at set-up is the run in which every port fails at once |
| ScanBooks.Books.constructor | src/network/tcp_async_scan.cpp:182-197 | a fresh scanner is the start of a run |
| ScanBooks.Books.Count | src/network/tcp_async_scan.cpp:199-229 | one finished connection adds one to scanned and to exactly one of the four results, and tells the shared counters |
| ScanBooks.Books.Finish | src/network/tcp_async_scan.cpp:210-248 | the next port is settled: one ledger event, and every invariant of the books is kept |
| ScanBooks.Books.Await | src/network/tcp_async_scan.cpp:251-251 | a launched connection joins those in flight under a key not in use |
| ScanBooks.Books.Complete | src/network/tcp_async_scan.cpp:281-296 | a connection in flight leaves with its verdict, counted once |
| ScanBooks.Books.ExpireOne | src/network/tcp_async_scan.cpp:302-307 | a connection in flight leaves as one timeout |
| ScanBooks.Books.ExpireOld | src/network/tcp_async_scan.cpp:300-311 | exactly the connections that are too old leave, each as one timeout, in whatever order; every survivor is younger than the timeout |
| ScanBooks.Books.GiveUpAll | src/network/tcp_async_scan.cpp:187-192 | all ports become scanned and other, as a run of events |
| ScanBooks.Summary | src/network/tcp_async_scan.cpp:254-321 | what any scanner's books say: counters add up, open ports are among those asked for, shared counters agree |
| EpollWorker.LaunchNext | src/network/tcp_async_scan.cpp:204-252 | launching one port is exactly the event that the kernel's answers call for, on every branch of launch_connect |
| EpollWorker.LaunchBatch | src/network/tcp_async_scan.cpp:255-259 | one event per port started; stops only at the last port, the limit or the stop flag; never exceeds the limit; starts nothing when the limit is 0 |
| EpollWorker.HandleEvents | src/network/tcp_async_scan.cpp:267-298 | the reported descriptors that are active get their verdicts in order, the others change nothing |
| EpollWorker.CountedOnce | src/network/tcp_async_scan.cpp:268-297 | however often a descriptor is reported it is counted once if active and not at all otherwise |
| EpollWorker.Turn | src/network/tcp_async_scan.cpp:263-311 | a turn settles what epoll_wait reported of the descriptors in flight, then expires exactly what is too old by the clock read after the wait; every survivor is younger than timeout_ms |
| EpollWorker.Loop | src/network/tcp_async_scan.cpp:254-312 | the loop terminates, with all ports done or the stop flag up |
| EpollWorker.ScanConnectWorker | src/network/tcp_async_scan.cpp:174-321 | whatever the kernel answers, the result is a run of ledger events made of launches and turns at ticks of their own, one after another: a launch, never above the limit or after the stop flag, is the answers to the calls for that port; a turn is what one wait reported of the descriptors then in flight, by their sockets' errors, then the sweep; ports stay unscanned only when stopped, aborted is the flag; shared counters equal the result |
| EpollMeaning.TurnReadsMean | src/network/tcp_async_scan.cpp:267-292 | SO_ERROR is read exactly of the reported descriptors that are in flight, each the first time it is reported, at its own tick |
| EpollMeaning.WorkerMeans | src/network/tcp_async_scan.cpp:204-298 | over any run: the open ports with their connect times are, in order, those whose connect succeeded at once or whose SO_ERROR was no error; refused counts those whose connect or SO_ERROR was a refusal, other every other failure, timeouts the expiries |
| InFlight.Sweep | src/network/tcp_async_scan.cpp:300-312 | a sweep leaves connections that are not yet due, and unless there were launches the tick by which all are swept stays the same |
| IocpWorker.Sockets.Create | src/network/tcp_async_scan.cpp:424-432 | a created socket was not open and is recorded as created |
| IocpWorker.Sockets.Close | src/network/tcp_async_scan.cpp:435-435 | only an open socket is closed, and each close is recorded |
| IocpWorker.LaunchNext | src/network/tcp_async_scan.cpp:419-484 | one ledger event as the kernel's answers call for; the socket is closed on every path but the pending one; keys of active and retired stay disjoint |
| IocpWorker.Connect | src/network/tcp_async_scan.cpp:434-484 | after the socket is created: association, bind and connect each lead to their own event |
| IocpWorker.LaunchBatch | src/network/tcp_async_scan.cpp:487-491 | one event per port started; stops only at the last port, the limit or the stop flag; retired connections are untouched |
| IocpWorker.HandlePacket | src/network/tcp_async_scan.cpp:498-532 | a packet counts once for a connection in flight, and for one given up or settled counts nothing |
| IocpWorker.ExpireOld | src/network/tcp_async_scan.cpp:534-551 | exactly the too old connections become one timeout each, are closed once and kept as retired |
| IocpWorker.Retire | src/network/tcp_async_scan.cpp:538-544 | moving a connection from active to retired closes its socket and leaves the others' sockets open |
| IocpWorker.RetireAll | src/network/tcp_async_scan.cpp:554-566 | the abort closes and retires everything in flight and counts nothing |
| IocpWorker.TakeOut | src/network/tcp_async_scan.cpp:500-502 | taking a connection out of flight keeps the open sockets in one-to-one correspondence with the rest |
| IocpWorker.Turn | src/network/tcp_async_scan.cpp:493-551 | one packet, then exactly what is too old expires; every survivor is younger than timeout_ms |
| IocpWorker.Round | src/network/tcp_async_scan.cpp:487-551 | one turn starts a port or comes closer to the tick by which everything in flight is swept |
| IocpWorker.Loop | src/network/tcp_async_scan.cpp:486-552 | the loop terminates, with all ports done or the stop flag up, and keeps sockets and tables consistent |
| IocpWorker.Drain | src/network/tcp_async_scan.cpp:568-586 | the wait for late completions terminates and leaves nothing retired |
| IocpWorker.LoadConnectEx | src/network/tcp_async_scan.cpp:352-372 | the temporary socket is closed on every path |
| IocpWorker.ScanConnectWorker | src/network/tcp_async_scan.cpp:374-590 | the result is a run of ledger events made of launches and turns at ticks of their own, one after another: a launch is the answers to the calls for that port, with the sockets in flight as the open ones; a turn is one completion packet and the sweep; no connection is finished twice, however late its completion; every socket created was closed exactly as often, on every path |
| IocpMeaning.WorkerMeans | src/network/tcp_async_scan.cpp:419-532 | over any run: the open ports with their times are, in order, those connected at once or completed without error; refused counts the refusals by ConnectEx or SO_ERROR, other every other failure, timeouts the expiries |
| SrcPorts.PortRange | src/network/tcp_async_scan.cpp:856-856 | with C++ truncating remainder every cursor value gives a port in 20001..59999 |
| SrcPorts.SamePort | src/network/tcp_async_scan.cpp:854-860 | within 20000 steps two cursor values give the same port if and only if they are 60000 and 0 |
| SrcPorts.PortCount | src/network/tcp_async_scan.cpp:854-860 | n <= 20000 consecutive cursor values, across the wrap too, give n ports, or n - 1 exactly when they pass 60000 and then 0 |
| SrcPorts.EnoughPorts | src/network/tcp_async_scan.cpp:854-860 | only 19999 or more pending ports can exhaust the allocator |
| SrcPorts.Alloc | src/network/tcp_async_scan.cpp:854-860 | returns the first port not pending and leaves the cursor behind it, 0 if and only if 20000 steps find none, and never 0 with fewer than 19999 pending |
| SynScanner.LaunchNext | src/network/tcp_async_scan.cpp:870-887 | the probe's source port is not pending; without a port or a successful send the target port counts as other |
| SynScanner.LaunchBatch | src/network/tcp_async_scan.cpp:870-887 | one event per port started, never more pending than max_inflight |
| SynScanner.ReadSegment | src/network/tcp_async_scan.cpp:905-916 | the filters let through exactly whole TCP segments from the target to this host, and read nothing past the received bytes |
| SynScanner.HandlePackets | src/network/tcp_async_scan.cpp:892-936 | exactly the segments that pass every filter and were sent to a pending source port count, in order |
| SynScanner.CountedOnce | src/network/tcp_async_scan.cpp:915-934 | a probe counts once if the target sent its source port any segment, from whichever port, and not at all otherwise |
| SynScanner.Turn | src/network/tcp_async_scan.cpp:889-948 | a turn settles what one run of recvfrom calls received, then expires exactly what is too old; every survivor is younger than timeout_ms |
| SynScanner.Loop | src/network/tcp_async_scan.cpp:864-954 | the loop terminates, with all ports done unless a signal came |
| SynScanner.ScanSyn | src/network/tcp_async_scan.cpp:780-961 | the result is a run of ledger events made of launches and turns at ticks of their own, one after another: a launch is what sending the probe gave from the next free source port of the allocator, whose cursor goes from launch to launch; a turn settles the probes to whose source port the target sent a segment, by its flags, then sweeps; complete unless aborted; no result exactly when set-up fails, and then nothing was counted |
| SynMeaning.SegmentMeans | src/network/tcp_async_scan.cpp:905-930 | of the octets received: which packets are TCP segments from the target, the port they are addressed to, and when their flag octet has SYN and ACK, or RST |
| SynMeaning.ScannerMeans | src/network/tcp_async_scan.cpp:864-954 | over any run: the open ports with their times are, in order, those for which a segment with SYN and ACK came first, refused counts those for which RST did, other every other segment and every probe not sent, timeouts the expiries |
| SynCredits.CreditsAreReplies | src/network/tcp_async_scan.cpp:892-936 | one credit for each event that the receive loop records, in order: the port asked, the port that sent the first segment to its source port, and whether the event opens the port |
| SynCredits.CreditedToTheSender | src/network/tcp_async_scan.cpp:913-934 | over any packets, every probe settled is settled by the port it asked if and only if the first segment to each pending source port comes from that port; every probe that opens a port is, if and only if this holds of the first segments with SYN and ACK |
| SynCredits.RunCreditedToTheSender | src/network/tcp_async_scan.cpp:864-954 | the same two equivalences over any run of launches and turns |
| SynCredits.OpenAsAnswered | src/network/tcp_async_scan.cpp:864-954 | over any run the ports reported open are, in order, those asked by the probes that SYN and ACK settled; they are the ports that sent it if and only if in no turn a pending source port first heard so from another port |
| SynCredits.OpenHasAnswered | src/network/tcp_async_scan.cpp:864-954 | over any run that meets the condition for SYN and ACK in every turn, each port reported open has itself sent SYN and ACK |
| SynCredits.WrongPortReported | src/network/tcp_async_scan.cpp:913-934 | one 40-byte frame with SYN and ACK from port 81 to the source port that asked port 80: port 80 is recorded as open |
| Checksum.FoldedSum | src/network/tcp_async_scan.cpp:595-606 | the plain sum folded at the end is the one's complement sum of RFC 1071, section 1 |
| Checksum.StandardExample | src/network/tcp_async_scan.cpp:594-608 | the example of section 3 of RFC 1071 has the sum given there |
| Checksum.Checksum16 | src/network/tcp_async_scan.cpp:594-608 | for up to 65537 words the 32-bit sum does not wrap and the result is the complement of the one's complement sum; both loops terminate |
| Checksum.AllOnes | src/network/tcp_async_scan.cpp:595-597 | 65537 words is the tight bound: words of all ones overflow 32 bits exactly beyond it |
| Checksum.StoredVerifies | src/network/tcp_async_scan.cpp:594-608 | stored high byte first in a zeroed field at an even offset, the checksum makes the data verify |
| Checksum.HostOrderVerifies | src/network/tcp_async_scan.cpp:750-769 | stored low byte first, it verifies if and only if the words sum to a multiple of 257, that is if its two bytes are equal |
| SynPacket.BuildFrame | src/network/tcp_async_scan.cpp:732-769 | the frame is the two headers with their checksums stored as the host lays them out |
| SynPacket.FrameFields | src/network/tcp_async_scan.cpp:732-757 | the fields of the two headers by octet: version 4, five words, 40 octets, protocol 6, the addresses, the ports and sequence number high octet first, SYN and no other flag |
| SynPacket.ProbeAccepted | src/network/tcp_async_scan.cpp:732-769 | on a big-endian host both headers of every frame verify, on a little-endian host a header verifies exactly when its words sum to a multiple of 257 |
| SynPacket.RejectedProbe | src/network/tcp_async_scan.cpp:732-769 | a frame the code can hand to sendto, between two hosts and ports, of which neither header verifies on a little-endian host |
| ThreadPool.StepInv | src/network/tcp_async_scan.cpp:124-167 | every step of every thread keeps: tasks enqueued = started then queued, in order; started = finished or in hand; a worker is gone only if stopped with the queue empty |
| ThreadPool.AllRanOnce | src/network/tcp_async_scan.cpp:124-167 | in every run, once the pool is destroyed each task ran exactly once if and only if there was a worker or no task |
| ThreadPool.DestructionEnds | src/network/tcp_async_scan.cpp:126-144 | from the start of destruction no interleaving is longer than a bound on the work left |
| ThreadPool.DestructionMoves | src/network/tcp_async_scan.cpp:126-144 | until the pool is destroyed some thread can always move |
| ThreadPool.Threads.constructor | src/network/tcp_async_scan.cpp:126-144 | all workers idle, nothing enqueued |
| ThreadPool.Threads.Add | src/network/tcp_async_scan.cpp:147-160 | a new task joins the back of the queue |
| ThreadPool.Threads.Wake | src/network/tcp_async_scan.cpp:130-139 | a woken worker takes the first task, stopped or not, and exits only with the queue empty |
| ThreadPool.Threads.Return | src/network/tcp_async_scan.cpp:140-140 | a finished task leaves the worker's hands |
| ThreadPool.Threads.Destroy | src/network/tcp_async_scan.cpp:166-166 | destruction begins |
| ThreadPool.Threads.RequestStop | src/network/tcp_async_scan.cpp:166-166 | workers are stopped one at a time, each after the one before was joined |
| Sharding.Plan | src/network/tcp_async_scan.cpp:972-981 | for every threads, hardware and port count: 1 <= workers <= ports, at least 64 in flight each, workers * inflight <= max(total, 128), and as many workers as the bounds allow |
| Sharding.Deal | src/network/tcp_async_scan.cpp:983-986 | the loop deals the ports out in turn |
| Sharding.ShardAt | src/network/tcp_async_scan.cpp:983-986 | element j of shard w is port number w + j * workers, so order is kept, and the size of each shard is exact |
| Sharding.ShardSizes | src/network/tcp_async_scan.cpp:979-986 | shards are nonempty and differ in size by at most one |
| Sharding.Partition | src/network/tcp_async_scan.cpp:983-986 | the shards together hold each port exactly as often as it was asked for |
| ScanSystem.LaunchInv | src/network/tcp_async_scan.cpp:998-1040 | the system starts in its invariant |
| ScanSystem.MoveInv | src/network/tcp_async_scan.cpp:1010-1100 | every step of a worker, the collector, the watchdog or the user keeps the system invariant, and the stop flag is only ever set |
| ScanSystem.CollectMerges | src/network/tcp_async_scan.cpp:1054-1066 | collecting a future adds its result to the total exactly once, in every counter and in the open ports |
| ScanSystem.EachCounterAdds | src/network/tcp_async_scan.cpp:1059-1066 | at every moment each counter of the total, and its open ports, are the sums over the futures taken so far |
| ScanSystem.AllTaken | src/network/tcp_async_scan.cpp:1042-1056 | when as many futures were taken as there are, each was taken |
| ScanSystem.WatchdogIsPatient | src/network/tcp_async_scan.cpp:1077-1094 | with the load and the judgement as separate steps: when the flag is raised, the load behind last_progress is longer than the limit ago and no worker told of progress between it and the last load; if the counter is still what was loaded none did for longer than the limit, and if not the last one told after that load |
| ScanSystem.WatchdogIsRight | src/network/tcp_async_scan.cpp:1077-1094 | when the flag is raised within the limit of the load: no worker told of progress for longer than the limit if and only if the counter is still what was loaded |
| ScanSystem.WatchdogCanBeHasty | src/network/tcp_async_scan.cpp:1077-1094 | a run in which a worker tells of progress between load and judgement, and the flag goes up at that very moment |
| ScanSystem.WatchdogCanBeLate | src/network/tcp_async_scan.cpp:1077-1094 | a run in which a worker tells of progress after the load, the judgement comes later than the limit, and the flag is raised rightly all the same |
| ScanSystem.TotalOver | src/network/tcp_async_scan.cpp:1042-1100 | in any reachable state with all futures collected the total accounts for the dealt ports |
| ScanSystem.ScanAccounts | src/network/tcp_async_scan.cpp:964-1101 | over every interleaving: the counters add up to the ports scanned, all of them unless stopped, open ports are among those asked for, and the progress counters agree |
| ScanProgress.ScanEnds | src/network/tcp_async_scan.cpp:998-1066 | over every interleaving workers and collector take at most four steps for each port and two for each worker |
| ScanProgress.ScanMoves | src/network/tcp_async_scan.cpp:998-1066 | in every reachable state some worker or the collector can take a step if and only if a future has not been taken; so, whenever steps that can be taken are, the collector ends |
| ScanTcp.Pass | src/network/tcp_async_scan.cpp:1052-1068 | one pass takes exactly the futures that were taken before or are ready when it comes to them, as collect steps of the system |
| ScanTcp.CollectAll | src/network/tcp_async_scan.cpp:1035-1098 | the loop ends with every future taken and each result merged, as a run of collect steps from the state it starts in; it raises the stop flag only on the quit key or with more than 8 seconds and six timeouts between two readings of the clock |
| ScanTcp.ScanShard | src/network/tcp_async_scan.cpp:1011-1031 | either worker's return meets the system's invariant for its shard, and is the result of a run that its kernel explains |
| ScanTcp.RunWorkers | src/network/tcp_async_scan.cpp:1010-1066 | the loop over the workers leaves, for each shard, the result of the run of its worker on its kernel |
| ScanTcp.RunConnectScan | src/network/tcp_async_scan.cpp:964-1101 | there is a run for each shard, of the worker on its kernel; each counter of the total is that of their merged results, its open ports are theirs with multiplicity, and it is aborted exactly when one of them was; it covers every port unless some worker saw the stop flag, and its open ports are among those asked for |
| ScanRuns.WorkerCounts | src/network/tcp_async_scan.cpp:174-321 | a worker's result counts everything its kernel said of a port, once, by what it says, on either system and when it cannot be set up |
| ScanRuns.AllCount | src/network/tcp_async_scan.cpp:1054-1066 | so do the merged results of all workers |
| ScanRuns.TotalIsMerged | src/network/tcp_async_scan.cpp:1054-1066 | the collector's total over all futures has the counters and open ports of the merged results, whatever the order of taking |
| ScanTcp.RunNotSkippedAccounts | src/network/tcp_async_scan.cpp:1171-1186 | at the end of every interleaving: not skipped implies open + failures = number of ports, and skipped implies the stop flag is up |
| ScanTcp.Report | src/network/tcp_async_scan.cpp:1168-1186 | the open ports sorted by port, each counter as it is, and skipped exactly when aborted or short |
| ScanTcp.ScanTcpAsync | src/network/tcp_async_scan.cpp:1105-1189 | on every return path: sorted open ports, a sub-multiset of the input; not skipped implies open + failures = number of ports; skipped only if a stop flag or signal was raised; scanned = open + failures if and only if it is not the case that ports were asked for, the target does not resolve and no half-open scan came first; behind the answer are the runs of the workers or of the half-open scanner, and open, refused, other and timeouts count what their kernels said, once, by what it says |
| ScanTcp.ScanOffline | src/network/tcp_async_scan.cpp:1156-1164 | an environment without a resolver: one port asked for, one failure, none scanned, not skipped |
| SortOpen.SortSorts | src/network/tcp_async_scan.cpp:1169-1169 | sorting by port permutes the open ports into order |
| StrictJson.SkipWs | src/analysis/ct_check.cpp:14-18 | stops at the first byte that is not isspace, inside the text |
| StrictJson.ParseString | src/analysis/ct_check.cpp:21-49 | accepts and advances as the specification function says, which is sound and complete for the grammar |
| StrictJson.ParseObject | src/analysis/ct_check.cpp:55-83 | accepts and advances as the specification function says |
| StrictJson.ParseArray | src/analysis/ct_check.cpp:86-114 | accepts, advances and counts as the specification functions say |
| StrictJson.ParseNumber | src/analysis/ct_check.cpp:117-149 | accepts and advances as the specification function says |
| StrictJson.ParseLiteral | src/analysis/ct_check.cpp:152-157 | accepts exactly the literal at the index |
| StrictJson.ParseValue | src/analysis/ct_check.cpp:160-173 | the mutual recursion terminates and advances as the specification function says |
| StrictJsonProof.StringComplete | src/analysis/ct_check.cpp:21-49 | every rendered string of the grammar is accepted to its end |
| StrictJsonProof.ReadString | src/analysis/ct_check.cpp:21-49 | whatever is accepted as a string is one of the grammar |
| StrictJsonProof.NumberComplete | src/analysis/ct_check.cpp:117-149 | every rendered number is accepted to its end |
| StrictJsonProof.ReadNumber | src/analysis/ct_check.cpp:117-149 | whatever is accepted as a number is one of the grammar |
| StrictJsonProof.ValueComplete | src/analysis/ct_check.cpp:160-173 | every rendered value is accepted to its end |
| StrictJsonProof.ReadValue | src/analysis/ct_check.cpp:160-173 | whatever is accepted as a value is a value of the grammar after blanks |
| StrictJsonProof.ReadObject | src/analysis/ct_check.cpp:55-83 | whatever is accepted as an object is an object of the grammar |
| StrictJsonProof.ReadArray | src/analysis/ct_check.cpp:86-114 | whatever is accepted as an array is an array of the grammar with the counted items |
| StrictJsonProof.ArrayTextComplete | src/analysis/ct_check.cpp:176-182 | every array text is accepted with its number of elements |
| StrictJsonProof.ArrayTextSound | src/analysis/ct_check.cpp:176-182 | whatever is accepted is an array text with the counted elements |
| StrictJsonProof.ParseTopLevelArraySize | src/analysis/ct_check.cpp:176-182 | true with count n exactly when the text is a JSON array text of n elements (RFC 8259, sections 2 to 7, widened as stated), and n is unique |
| JsonAlphabet.Structural | src/analysis/ct_check.cpp:160-173 | the structural bytes and the three literals spell the characters of RFC 8259 |
| JsonAlphabet.Classes | src/analysis/ct_check.cpp:14-49 | isspace, digits, hexadecimal digits, the letters of short escapes, and what ends a bare word, as lists of characters |
| Utf8.DecodeEncode | src/core/utils.cpp:233-251 | the bytes appended for a scalar value are one UTF-8 character of that value |
| Utf8.Examples | src/core/utils.cpp:233-251 | the characters of the examples in section 7 of RFC 3629, and the first and last of each length, have the octets given there |
| Utf8.DecodeEncodeAll | src/core/utils.cpp:233-251 | decoding the UTF-8 encoding of any scalar values yields them |
| Utf8.EncodeDecode | src/core/utils.cpp:233-251 | re-encoding what well-formed UTF-8 decodes to yields the bytes |
| Unescape.ParseHex | src/core/utils.cpp:221-231 | four hex digits at the position, or failure |
| Unescape.UnescapeText | src/core/utils.cpp:253-302 | the loop with its index jumps is the step-by-step specification |
| Unescape.UnescapeUnicode | src/core/utils.cpp:264-292 | one unicode escape, surrogate pairs and lone surrogates included |
| UnescapeProof.PairOfScalar | src/core/utils.cpp:272-278 | every scalar above 0xFFFF is the combination of its surrogate pair |
| UnescapeProof.ScalarOfPair | src/core/utils.cpp:272-278 | every surrogate pair combines to a scalar in 0x10000..0x10FFFF that splits back into it |
| UnescapeProof.UnescapeEscapes | src/core/utils.cpp:253-302 | escapes of scalar values, singly or as pairs, decode to the UTF-8 of those values |
| UnescapeProof.EscapeRoundTrip | src/core/utils.cpp:210-302 | writing scalar values as escapes and applying unescape yields exactly their UTF-8 encoding, which decodes back |
| UnescapeProof.ShortRoundTrip | src/core/utils.cpp:255-301 | any text, with any of its bytes written as the short escapes of RFC 8259, section 7, unescapes to itself |
| UnescapeProof.OddEscapes | src/core/utils.cpp:255-301 | a \u without four digits becomes a question mark and the digits stay, any other letter stands for itself, a backslash at the end stays |
| UnescapeProof.LoneSurrogate | src/core/utils.cpp:264-292 | an escape of half a surrogate pair without the other half after it becomes U+FFFD |
| UnescapeProof.UnescapeKeepsUtf8 | src/core/utils.cpp:233-301 | well-formed UTF-8 stays well-formed through bad hex, lone surrogates, unknown escapes and a trailing backslash |
| LenientJson.SkipClass | src/core/utils.cpp:305-305 | stops at the first byte outside the class |
| LenientJson.ScanString | src/core/utils.cpp:311-322 | stops at the first unescaped quote, or the end |
| LenientJson.ParseTree | src/core/utils.cpp:304-356 | on every input on which the parser returns, its tree and index are those of the specification |
| LenientJson.ParseObjectBody | src/core/utils.cpp:328-337 | the object loop builds the map and the key order of the specification |
| LenientJson.ParseArrayBody | src/core/utils.cpp:341-345 | the array loop builds the items of the specification |
| LenientJsonProof.ElementStuck | src/core/utils.cpp:341-344 | a turn of the array loop does not move on if and only if it stands on a closing brace |
| LenientJsonProof.EntryStuck | src/core/utils.cpp:328-336 | a turn of the object loop does not move on if and only if it stands on a closing bracket |
| LenientRun.MismatchedCloserNeverReturns | src/core/utils.cpp:328-344 | two openings on which no number of steps finishes the two loops, whatever follows |
| LenientRun.ParseIsRunning | src/core/utils.cpp:304-356 | the specification has a tree if and only if running the loops and the recursion step by step finishes, and then it is the tree of that run |
| LenientJsonProof.ParseTidy | src/core/utils.cpp:331-334 | in every node the order list has no duplicates and exactly the keys of the map |
| LenientJsonProof.BodyUtf8 | src/core/utils.cpp:304-356 | every string in the tree of a well-formed body is well-formed UTF-8 |
| JsonTermination.ParseGoesOn | src/core/utils.cpp:304-356 | the recursive parser and the single pass with an explicit stack agree, in every bracket context |
| JsonTermination.ReturnsExactly | src/core/utils.cpp:304-356 | for all inputs: running the parser finishes if and only if the pass meets no mismatched closing bracket where an item or a key is due |
| FindKey.FindIsFirstHit | src/core/utils.cpp:358-381 | the search returns the first non-empty hit of the whole tree in document order, or nothing |
| FindKey.FindUtf8 | src/core/utils.cpp:358-381 | the search returns well-formed UTF-8 from a tree that holds only such strings |
| FindKey.JsonGetStr | src/core/utils.cpp:385-388 | the first non-empty hit in the parsed body, well-formed if the body is |
| JsonAgreement.DocumentTree | src/core/utils.cpp:304-356 | on a JSON text the tree builder stops after the value with the tree that the text denotes |
| JsonMeaning.DocumentMeans | src/core/utils.cpp:304-356 | on every JSON text the parse result, by index: the items of an array in order, for each key of an object the last member that has it, the keys in order of first occurrence, strings unescaped and other scalars as they stand, at every depth |
| FindMeaning.HitsAre | src/core/utils.cpp:358-381 | what the search finds in the tree of a JSON value is what the value has for the key, said of the syntax |
| FindMeaning.GetStrMeans | src/core/utils.cpp:358-388 | on every JSON text json_get_str is the first text for the key that is not empty, in document order |
| JsonAgreement.ItemAgrees | src/core/utils.cpp:304-356 | on any prefix of a document the tree builder returns, at the value's end or the prefix's |
| JsonAgreement.PrefixTerminates | src/core/utils.cpp:304-356 | on every prefix of a value that the recogniser accepts the tree builder returns, at the value's end or the prefix's |
| JsonAgreement.ArrayTextAgrees | src/core/utils.cpp:338-345 | on every accepted array text both readers stop at the same index, and with the same item count if and only if the brackets do not hold blanks alone, at least one; then the counts are 1 and 0 |
| JsonAgreement.BlankBracketsDisagree | src/core/utils.cpp:338-345 | on `[ ]` the recogniser counts no item and the tree builder one |
| JsonAgreement.ArrayTextPrefixTerminates | src/core/utils.cpp:338-345 | every prefix of an accepted array text is parsed without hanging |
| Chunked.ReadResponse | src/network/http_client.cpp:437-462 | the response is the reads joined, whole up to the limit and cut within one buffer of it |
| Chunked.Decode | src/network/http_client.cpp:495-512 | the cursor loop terminates and computes the chunk-by-chunk specification |
| ChunkedProof.SizeReads | src/network/http_client.cpp:501-505 | strtol reads every hexadecimal spelling of a size, digit by digit in either case with leading zeros, and stops at the extension |
| ChunkedProof.StrtolReads | src/network/http_client.cpp:501-505 | strtol base 16 after whitespace, a sign and 0x, up to the first other character, cut to a long (section 7.22.1.4 of the C standard) |
| ChunkedProof.DecodesEncoding | src/network/http_client.cpp:494-513 | decoding the encoding of any nonempty chunks, with any extensions, hexadecimal spellings of the size and tail, yields their concatenation (RFC 9112, section 7.1) |
| ChunkedProof.TruncatedDecodes | src/network/http_client.cpp:494-513 | decoding any truncation of any body yields a prefix of decoding the whole |
| ChunkedProof.CutChunkDecodes | src/network/http_client.cpp:506-511 | a body cut off inside the data of its first chunk yields nothing of it, one cut off after the data all of it |
| J3.Analyze | src/network/j3_probes.cpp:248-301 | each counter counts its kind of probe, and the canned class is the earliest one with two or more members, a line longer than 3 and a valid HTTP probe |
| J3.FindCanned | src/network/j3_probes.cpp:279-298 | the search stops at the first canned class and reports its size, line and length |
| J3.ClassOf | src/network/j3_probes.cpp:283-290 | the size of an answer's class and whether it holds a valid HTTP probe |
| J3.LineKinds | src/network/j3_probes.cpp:89-105 | a line is real HTTP exactly when it starts with HTTP/1.0, 1.1 or 2.0 and is long enough, and of a bad version exactly when it only has that shape |
| J3.CountsAddUp | src/network/j3_probes.cpp:258-276 | silent + answered = probes; real HTTP + bad version + other = answered |
| J3.CannedReported | src/network/j3_probes.cpp:279-298 | canned_identical is positive, and then at least 2, if and only if some class is canned |
| J3.AnalysisPermutes | src/network/j3_probes.cpp:248-301 | the order of the probes changes no counter and not whether a canned class is found, and if only one class is canned not its size, line or length |
| J3.CannedMeans | src/network/j3_probes.cpp:279-298 | a canned class is reported exactly when two answered probes have the same line, longer than 3, and the same size, and so has one that was a proper HTTP request |
| Brand.BrandMeans | src/analysis/brand_cert.cpp:120-160 | a name has a brand exactly when, wildcard stripped, it equals one or lies under one, in any case |
| Brand.BrandIsFixed | src/analysis/brand_cert.cpp:120-160 | the brand found for a name is its own brand |
| Brand.ClaimIsBrand | src/analysis/brand_cert.cpp:164-181 | what a certificate claims is a fixed point of is_brand and comes from one of its names; nothing is claimed exactly when no name has a brand |
| Brand.OwnershipOfBrand | src/analysis/brand_cert.cpp:183-224 | ownership depends only on the brand of the domain, and more networks never take it away |
| CertMeaning.BrandPicked | src/analysis/brand_cert.cpp:120-160 | the brand of a name, with or without a wildcard, is that of the first row it equals, and else of the first row it lies under, in any case |
| CertMeaning.NoBrandPicked | src/analysis/brand_cert.cpp:120-160 | it has none exactly when it equals no row and lies under none |
| CertMeaning.ClaimMeans | src/analysis/brand_cert.cpp:164-181 | a certificate claims the brand of its common name, or else of its first alternative name that has one |
| CertMeaning.OwnsMeans | src/analysis/brand_cert.cpp:183-224 | networks own a brand exactly when the text of one of them mentions, in any case, a marker in the first row of the brand |
| BrandTable.BrandsWellFormed | src/analysis/brand_cert.cpp:20-117 | the 96 rows of the table have nonempty brands that are not wildcards, so all of the above holds of it |
| Sni.IequalsAscii | src/analysis/sni_consistency.cpp:20-32 | true exactly for names that are equal in lower case |
| Sni.WildcardMeans | src/analysis/sni_consistency.cpp:35-50 | a wildcard matches exactly the names with one nonempty dot-free label before its suffix, up to ASCII case (RFC 6125, section 6.4.3) |
| Sni.Statistics | src/analysis/sni_consistency.cpp:100-130 | the loop counts answers, equal certificates and the set of distinct ones |
| Sni.FindForeign | src/analysis/sni_consistency.cpp:141-149 | the first other name that the base certificate covers |
| Sni.ForeignNonempty | src/analysis/sni_consistency.cpp:141-149 | a foreign name found is one of the list and really covered; none is found exactly when none is covered |
| Sni.Classify | src/analysis/sni_consistency.cpp:81-174 | each finding holds if and only if its condition on the probes does |
| Sni.FindingsFit | src/analysis/sni_consistency.cpp:132-171 | over any probes: same_cert_always gives at most one certificate and exactly one of reality_like and default_cert_only; passthrough excludes it; reality_like has a matched name; impersonation names a brand |
| CertMeaning.FindingsMean | src/analysis/sni_consistency.cpp:100-171 | each finding, said of the probes: three answered, all with the base certificate or with several, which names it covers and which brand it claims, and which name is reported |
| CertMeaning.ExactMeans | src/analysis/sni_consistency.cpp:35-50 | a name without a wildcard matches exactly itself, in any case |
| Text.SameTextMeans | src/analysis/sni_consistency.cpp:20-32 | texts are the same up to case exactly when they are letter by letter of the alphabet |
| Verdict.ScoreBook.StrongSignal | src/cli/orchestrator.cpp:121-124 | the signal is listed and its penalty charged, so the score is always 100 less the listed penalties |
| Verdict.ScoreBook.SoftSignal | src/cli/orchestrator.cpp:126-129 | likewise for a soft signal |
| Verdict.ScoreBook.Clamp | src/cli/orchestrator.cpp:135-137 | the score ends in 0..100, unchanged if it was there, at the nearer end if not |
| Verdict.ScoreProxyAndTls | src/cli/orchestrator.cpp:511-531 | the proxy and TLS signals of one port |
| Verdict.ScoreSni | src/cli/orchestrator.cpp:533-549 | the Reality and impersonation signals of one port, suppressed behind a CDN |
| Verdict.ScoreHttps | src/cli/orchestrator.cpp:551-567 | the HTTPS signals of one port |
| Verdict.ScoreCt | src/cli/orchestrator.cpp:569-576 | the CT signal of one port |
| Verdict.ScoreJ3 | src/cli/orchestrator.cpp:578-590 | the active-probing signals of one port |
| Verdict.ScorePort | src/cli/orchestrator.cpp:504-591 | one turn of the loop adds exactly the port's signals and raises exactly its flags |
| Verdict.ScorePorts | src/cli/orchestrator.cpp:504-591 | the loop over the ports raises the flags of any port, lists its signals in order and charges the sum of what each port costs |
| Verdict.ScoreUdp | src/cli/orchestrator.cpp:464-482 | the UDP handshakes cost 22, 18 and 4 |
| Verdict.Name | src/cli/orchestrator.cpp:596-616 | the score interval of each label; a Reality stack exactly when Reality was seen, an Amnezia stack exactly when its default port answered, WireGuard exactly when only it did, and no VPN only without TLS or port 443 |
| Verdict.CountHits | src/cli/orchestrator.cpp:754-759 | the loop over the rules counts the hits of either kind |
| Verdict.Classify | src/cli/orchestrator.cpp:745-777 | the tier from the six rules: any A-tier hit blocks at once, two B-tier hits block, one is monitored |
| Verdict.Assess | src/cli/orchestrator.cpp:462-616 | score, label, stack, tier, flags and the two lists of signals, in order, are those the reports determine, and the signals listed cost exactly the total |
| VerdictProof.OrderDoesNotMatter | src/cli/orchestrator.cpp:462-616 | the order of port reports, GeoIP records and UDP replies changes neither score, label, stack, tier nor any flag |
| VerdictProof.MoreReportsCostMore | src/cli/orchestrator.cpp:462-777 | one more port report or UDP reply never raises the score and never softens the label or the tier |
| VerdictProof.FlagPenalties | src/cli/orchestrator.cpp:504-591 | over all ports the flags raised are paid for, and impersonation comes with Reality |
| VerdictProof.ImpersonationIsSevere | src/cli/orchestrator.cpp:533-601 | impersonation implies Reality, a score of at most 66, SUSPICIOUS or HIGH-CONFIDENCE, and a block tier |
| VerdictProof.TierBoundsScore | src/cli/orchestrator.cpp:745-777 | an immediate block means at most 85, an accumulative block at most 72, monitoring at most 88 |
| VerdictProof.CleanYetBlocked | src/cli/orchestrator.cpp:596-767 | CLEAN under an immediate block if and only if, on the reports, exactly one port has an open proxy as its only signal, every other port has none, and no charged UDP port was answered |
| VerdictProof.LoneProxyIsClean | src/cli/orchestrator.cpp:596-767 | a host with one SOCKS5 port and nothing else: score 85, CLEAN, immediate block |
| VerdictMeaning.KnownCdnMeans | src/cli/orchestrator.cpp:57-88 | an organisation is a known CDN exactly when its text has one of the listed names in it, in any case |
| VerdictMeaning.BehindCdnMeans | src/cli/orchestrator.cpp:89-113 | a port looks like a CDN's exactly when a network of the host is a known CDN, or its Server header has one of the listed names in it, in any case, or it sent a CDN header |
| VerdictMeaning.CdnTextClears | src/cli/orchestrator.cpp:57-113 | a network whose text mentions a listed name, in any case, rules out Reality and impersonation on every port, and the Reality stacks |
| VerdictMeaning.CloudflareClears | src/cli/orchestrator.cpp:57-113 | the network "Cloudflare, Inc." is one |
| VerdictMeaning.ListedMeans | src/cli/orchestrator.cpp:464-591 | a signal is listed, in the list of its kind, exactly when a UDP reply or the report of some port calls for it, condition by condition on the report |
| VerdictMeaning.ScoreMeans | src/cli/orchestrator.cpp:464-594 | the score is a hundred, less 22, 18 and 4 for the UDP handshakes and less what each port's report costs, with the weight of each condition, and not below 0 |
| VerdictMeaning.FlagsMean | src/cli/orchestrator.cpp:504-591 | each flag says that some port's report meets its condition |
| VerdictMeaning.TierMeans | src/cli/orchestrator.cpp:745-777 | an immediate block exactly on a WireGuard or AmneziaWG handshake or an open proxy; else an accumulative one exactly on two of Reality, impersonation and probing anomalies, and a pass on none |
| VerdictProof.ImpersonationNamesBrand | src/cli/orchestrator.cpp:541-546 | impersonation on consistent findings names a brand of the table that none of the host's networks owns |

## Left out

- System calls, DNS resolution, TLS handshakes, certificate extraction and HTTP request building: their answers are
  parameters, for every possible value.
- The alternative SNI names: the classification holds for any list of them. ASN markers are taken already split, trimmed
  and lower-cased.
- Real concurrency in `ScanTcp`: it runs each worker against a kernel of its own and then collects; the interleavings are
  the subject of `ScanSystem`, and whether a worker sees the watchdog's flag is part of its kernel.
- IocpWorker.ScanConnectWorker: claims that each connection is counted once, not that its verdict is right when the
  address of a freed OVERLAPPED block is used again, because connections are numbered.
- The set-up steps of the SYN scanner are one answer, because the failure of any of them has the same effect; only the
  IOCP worker's closing of sockets is modelled, since the others hold theirs in guards or until they return.
- Sub-millisecond time: the clock is an integer number of milliseconds.
- Informational notes, colours, progress lines and the suggestions printed with the verdict: they decide nothing.
- Memory limits: the tree builder's endless array loop would run out of memory in the end.
- The narrower `long` of 64-bit Windows in the chunk sizes: the model has the 64-bit one, and both exceed every body.
- The status line, header search and URL splitting of `http_get`, and the other scanners, probes and menus of the
  repository: short string handling or input and output.
