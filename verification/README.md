# The redirection gateway, modelled and verified

honeybrid sits between attackers and honeypots. It lets a low-interaction honeypot (LIH) answer first, records the
conversation, and when its rules say so replays the recording to a high-interaction honeypot (HIH) and hands the
attacker over. This project models the parts that decide whether that works, and proves what they keep:

- `Tracking`, `TrackingRuns`, `TargetPins`, `IntraPins`, `Openings`, `TrackingLaws`, `Tracker`, `Keys`: the six connection trees,
  the three pin trees, and what `create_conn`, `setup_redirection`, `update_conn`, `remove_conn`, `conn_lookup` and
  `clean` do to them. `Tracker` is the class that works on the trees in place; `Tracking` is its specification on
  values. A run of events ends where the code would use memory it has freed, or free it again: nothing is claimed of
  what the code does after that.
- `Locking`, `SweepRuns`: `connlock`, the connections' own locks and the cleaner, as a state machine of any number of
  threads, and what each sweep frees.
- `Gateway`, `GatewayRuns`: what every packet does to a connection, by origin and state (`de_thread`,
  `DE_process_packet`), and the life-cycle over whole runs. `Gateway.Connection` is the C structure with its loops.
- `Delivery`, `InsideDelivery`: what the attacker and each honeypot hear over whole runs, and why a connection ends.
- `Replay`, `ReplayRuns`, `ReplayClock`, `Numbers`, `CrashRuns`: the recording, its gates, what the replay keeps over
  whole runs, the clock and the numbers two conversations are joined by, and when a run ends in a null pointer.
- `Rules`, `RuleLaws`: the rule compiler (linked nodes in the heap), the evaluator, the choice of a backend, and what a
  rule means.
- `Checksum`, `Sequence`, `TcpOptions`, `Frame`, `Transport`: packet rewriting, on byte buffers in place. `Transport`
  puts the parts together to `nat`, `forward_ext2hih` and `forward_hih2ext`; `FrameRuns` and `TransportRuns` derive from
  the runs of `Gateway` what is done to the frame of each packet, and what the receiver gets.
- `RateLimit`: the per-source limiter of `mod_control`.
- `GatewayWitnesses`, `TrackingWitnesses`: one concrete run for each point below that a run of events shows.

Code that works by changing things step by step is a method or a class proved against a function of the old state;
the properties are lemmas about those functions. `dafny verify dfyconfig.toml` checks everything.

## What the model found

Where the code and its comments or documentation disagree, the model follows the code. Each point is a proved member.

- `DE_create_tree` hands back the head of the *last* OR group, although its comment speaks of the root; and a group
  keeps only its first two conjuncts. The installed rule means what was written iff there is one group of at most
  two conjuncts (`Rules.InstalledFaithfulIff`); the graph as a whole does iff no group has more than two
  (`Rules.GraphFaithfulIff`).
- With exclusive HIHs, the last release of a target pin frees the pin and its key, but removes the tree entry of the
  connection's own pin key, not the target pin's. The entry stays and points to freed memory. Every later search for that
  HIH's pin reads it, and no event that is itself defined takes it out again (`TargetPins.FirstFreedRead`,
  `TargetPins.FreedForGood`): `TrackingWitnesses.FreedPinIsRead`. What the code does after that read is not defined, so the
  model's runs end there.
- An exclusive HIH's outgoing connection takes a reference on the target pin that is never given back
  (`TrackingLaws.UndoneInRuns`, `TargetPins.AlwaysExact`): `TrackingWitnesses.ReferenceLeaks`.
- A comm pin is filed under the target address an attacker reached, but searched for under the address a honeypot calls.
  So a honeypot that calls its attacker back shows the default route's address, not the one it was reached under
  (`Openings.CommPinDecides`): `TrackingWitnesses.CallBackIsNotPinned`.
- An exclusive internal handler's pin is filed under the very key of the connection that made it, not under a copy.
  Removing that connection frees the key: a second time if it was the pin's last holder
  (`TrackingWitnesses.KeyFreedTwice`), and under a tree that goes on comparing it if not
  (`TrackingWitnesses.KeyFreedInUse`). A run first does so exactly when it removes the first connection pinned to such
  a handler (`IntraPins.FirstSharedFree`).
- `max_packet` per `expiration` is not the bound enforced: any interval of that length holds at most
  `2 * max_packet - 1` accepted packets, or `max_packet + 1` if that is less and `expiration` is 0, and that many are
  reached (`RateLimit.IntervalBound`, `RateLimit.BoundIsReached`).
- A redirection that has begun can be completed iff a packet of the LIH was recorded and the recording ends in a packet
  of the attacker (`ReplayRuns.RedirectionCompletesIff`). Without the first it waits for ever
  (`GatewayWitnesses.ReplayWaitsForEver`); without the second, which takes a full buffer, the last accepted answer
  dereferences a null pointer (`GatewayWitnesses.ReplayCrashes`).
- The one other crash needs `deny_hih_init`: a TCP packet taken for an HIH's, on a connection from outside that has not
  been redirected, is to be refused by a reset through a back_handler that is not set
  (`GatewayWitnesses.DenialCrashes`). `CrashRuns.CrashedIff` says that a run crashes in these two ways only.
- The packet that triggers a redirection is recorded but not proxied. If the buffer is full it is lost without a trace:
  when forwarding begins, the HIH has been sent everything the attacker said up to the trigger iff no packet was offered
  to a full buffer (`ReplayRuns.NothingLostIff`): `GatewayWitnesses.TriggerLost`.
- The first gate of a replay is set before the HIH has sent its SYN, so delta is still 0; it compares the two
  conversations' offsets only if the HIH happens to use the LIH's initial number (`ReplayRuns.GateComparesIff`).
- A connection of an HIH to an internal host sends its first packet to the internal link and, while under control, every
  later one to the external link (`GatewayRuns.OwnLinkIff`): `GatewayWitnesses.InternalPacketGoesOut`.
- The three option walkers loop for ever exactly when they meet a zero-length option or, in get and set, a timestamp
  option whose length is not 10 (`TcpOptions.TerminatesIff`, `TcpOptions.EndlessAreas`). The fast path of `strip_tcp_timestamps` turns the first NOP, not the option, into EOL.
- Inbound NAT counts a tag twice iff the frame was tagged already (`Frame.NatInboundMeaning`); the dispatcher never
  does that (`FrameRuns.FrameStaysWhole`). A recorded packet replayed to an untagged HIH keeps the LIH's tag (`Frame.ReplayedTag`).
- The bit field `vid` of a tag is in host order. On a little-endian machine it holds the priority and the low byte of the
  VLAN identifier: VLANs 256 apart are one, VLAN 256 itself is none, and one VLAN at two priorities is two
  (`Frame.VidMeaning`, `Frame.LittleVidConfuses`).
- An exclusive internal handler's reply key determines the HIH connection's key only up to the backend's VLAN
  (`TrackingRuns.ExclusiveIntra`): `TrackingWitnesses.VlansCollide`.
- Two attackers' connections collide in `ext_tree2` iff they differ only in the target address, at handlers of the
  same address and VLAN (`TrackingLaws.InboundClash`): `TrackingWitnesses.RepliesCollide`. The
  indexing theorem needs that no such collision happens, and `Tracking.CreateKeepsIndexIff` and
  `Tracking.RedirectKeepsIndexIff` show that it needs no more.
- A backend's reply passes for the LIH's iff the backend shares the front handler's address, VLAN and interface
  (`TrackingLaws.BackendLabel`).
- `setup_redirection` inserts into `ext_tree2` without `connlock`. That is the one way for two threads, or a thread and
  the cleaner, to be in the connection trees at once (`Locking.TogetherInTreesIff`, `Locking.LookupDuringRefile`).

## Model

| member | source | states |
|---|---|---|
| Checksum.InCksum | src/netcode.c:81-107 | the loop returns the folded sum of all native-order words, modulo the 32-bit accumulator, for even and odd lengths |
| Checksum.AccumulatorBound | src/netcode.c:83-95 | no data of n words can overflow the 32-bit accumulator iff n is at most 65537 |
| Checksum.LoopIsChecksum | src/netcode.c:81-107 | up to 65537 words the two folds give the complement of the one's-complement sum of section 1 of RFC 1071 |
| Checksum.LoopCorrectIff | src/netcode.c:81-107 | the loop is right on all data of n words iff n is at most 65537; past that a concrete buffer fails |
| Checksum.OnesSumIsCanon | src/netcode.c:102-106 | the one's-complement sum is the representative modulo 65535 of the plain sum |
| Checksum.FinishIsCanon | src/netcode.c:102-106 | two folds are enough for every 32-bit accumulator |
| Checksum.StoredChecksumVerifies | src/netcode.c:50-55 | a checksum stored into a field that was zero makes a second run return 0 |
| Checksum.OnlyTheChecksumVerifies | src/netcode.c:50-55 | and no other value of the field does, up to the two zeros |
| Checksum.ChecksumOfSwapped | src/netcode.c:81-107 | section 2(B) of RFC 1071: swapping the bytes of every word swaps the checksum's |
| Checksum.StoredBytesIndependentOfEndian | src/netcode.c:81-107 | summing native words and storing natively writes the same two bytes on both kinds of machine |
| Checksum.FieldVerifies | src/netcode.c:50-55 | on bytes: zero an even field, checksum, store, and the checksum of the result is 0 |
| Checksum.ZeroIffAllOnes | src/netcode.c:81-107 | a machine of either kind gets checksum 0 exactly where the bytes, added up in network order, are all ones modulo 65535 |
| Checksum.ComplementSumsUp | src/netcode.c:81-107 | the checksum as stored makes up the sum of any bytes to all ones |
| Checksum.SetIpChecksum | src/netcode.c:50-55 | the sum over the 20-byte header is all ones afterwards and nothing but its two checksum bytes changed |
| Checksum.TcpChecksum | src/netcode.c:300-316 | the checksum of pseudo header, TCP header and payload: as stored it makes up the sum over addresses, protocol 6, length and segment |
| Checksum.SetTcpChecksum | src/netcode.c:69-73 | addresses, protocol 6, length and segment sum up to all ones afterwards, and the two checksum bytes are the only ones changed, to exactly the checksum of the zeroed segment |
| Sequence.WrapsModulo | src/honeybrid.c:889-893 | the 32-bit sums of the model are sums and differences modulo 2^32 |
| Sequence.OffsetPreserved | src/netcode.c:942-943 | byte k of the HIH's stream is shown as byte k of the stream the LIH began, for all 32-bit values |
| Sequence.DeltaIsDifference | src/honeybrid.c:891-892 | delta is the distance from the HIH's initial number to the LIH's |
| Sequence.TranslationsInverse | src/netcode.c:876-880 | acknowledgements are shifted back by exactly what sequence numbers are shifted forward, both ways |
| Sequence.GateComparesOffsets | src/netcode.c:1172-1173 | the gate's test passes iff both packets stand at equal offsets from their SYNs |
| Sequence.DeltaInjective | src/honeybrid.c:891-892 | two SYNs give the same delta iff they carry the same number |
| TcpOptions.TerminatesIff | src/netcode.c:358-381 | each walker's loop ends iff the walk meets no zero-length option and, in get and set, no timestamp whose length is not 10 |
| TcpOptions.EndlessAreas | src/netcode.c:358-381 | two option areas of four bytes on which no walker, or neither get nor set, ends |
| TcpOptions.FastPathAgrees | src/netcode.c:352-356 | where the aligned 12-byte comparison holds, the general walk stops on the same timestamp |
| TcpOptions.RecommendedLayout | src/netcode.c:391-403 | an area that begins with bytes 1, 1, 8, 10 has its two values in network order at offsets 4 and 8 |
| TcpOptions.OtherOptionsSkipped | src/netcode.c:410-438 | byte 0 ends the walk, byte 1 is stepped over, kinds other than 8 are skipped by their length |
| TcpOptions.GetTimestamps | src/netcode.c:384-442 | both paths return the values of the first timestamp option, or none |
| TcpOptions.SetTimestamps | src/netcode.c:444-494 | the segment is the old one with the given values in the timestamp option, absent values left alone |
| TcpOptions.StripTimestamps | src/netcode.c:345-382 | at most one byte becomes EOL: the option's kind, or the first NOP on the fast path |
| TcpOptions.GetAfterSet | src/netcode.c:384-494 | get after set returns the values set; every byte outside the two values is unchanged |
| TcpOptions.GetAfterStrip | src/netcode.c:345-442 | get after strip finds nothing, whichever path strip took |
| TcpOptions.RecommendedStripped | src/netcode.c:352-377 | stripping 1, 1, 8, 10 writes 0 over byte 0 of a 12-byte area and over byte 2 of a longer one |
| TcpOptions.FixTimestamps | src/netcode.c:496-524 | an unexpected timestamp is stripped, one out of step shifted by the recorded difference, anything else left alone |
| TcpOptions.FixedShows | src/netcode.c:496-524 | what is found afterwards: no timestamp, one moved by the difference with its echo left alone, or what was there |
| TcpOptions.ShiftFollowsRecordedClock | src/netcode.c:505-516 | with a difference of one recorded and one live value, later values follow the recorded clock, wrapping around |
| TcpOptions.ShiftIsSignedSum | src/netcode.c:509 | where the sum of the two C ints does not overflow it is the shifted value; it overflows iff both have the sign the shifted value has not |
| Frame.InjectedIsWire | src/netcode.c:901-902 | the injected bytes lie in FRAME and are the packet's 802.3 or 802.1Q encoding iff nothing exceeds the datagram |
| Frame.VidMeaning | src/structs.h:33-42 | vid is the VLAN identifier on a big-endian machine, priority and low byte of the identifier on a little-endian one, and 0 there iff both are |
| Frame.LittleVidConfuses | src/structs.h:33-42 | two tags have one vid on a little-endian machine iff priority and identifier modulo 256 agree |
| Frame.ReceivedIsShaped | src/connections.c:67-97 | both ways of laying out a received packet put the IP header at offset 18 and account for the size exactly; unfragmented means the datagram fits |
| Frame.StripUndoesInsert | src/netcode.c:548-556 | a tag inserted and stripped leaves every byte from the Ethernet header on as it was |
| Frame.InsertUndoesStrip | src/netcode.c:563-569 | a tag stripped and inserted again restores the whole frame |
| Frame.NatInboundMeaning | src/netcode.c:536-572 | nat of an outside packet rewrites exactly addresses and tag; the size is wrong by one tag iff a tagged frame gets a tag |
| Frame.NatOutboundMeaning | src/netcode.c:573-670 | nat of an inside packet rewrites exactly addresses and tag for each destination, and never miscounts |
| Frame.ForwardInboundMeaning | src/netcode.c:840-866 | forwarding to the HIH rewrites exactly addresses and tag, leaves an earlier tag for an untagged HIH, and never miscounts |
| Frame.ForwardOutboundMeaning | src/netcode.c:909-934 | forwarding to the attacker rewrites exactly the addresses and strips any tag |
| Frame.ExcessCountsDoubleTags | src/netcode.c:529-679 | over any series of operations the size is off by four bytes for each double tagging and by nothing else |
| Frame.DispatchKeepsLayout | src/honeybrid.c:812-1006 | after each series of work a packet can have done to it, the injected bytes end with the datagram and encode it |
| FrameRuns.DispatchedSends | src/honeybrid.c:812-1006 | one turn of the dispatcher sends at most one packet besides the replay, and it is the one it was called for |
| FrameRuns.AlwaysInOrder | src/netcode.c:1089-1122 | over every run packets are forwarded to the HIH in order of arrival, each once, and only the attacker's |
| FrameRuns.PacketWork | src/honeybrid.c:812-1006 | over every run each packet is proxied at most once and replayed at most once, and proxied first |
| FrameRuns.FrameStaysWhole | src/netcode.c:901-902 | so for every packet of every run, whatever the routes, what is injected is the packet's encoding and lies inside FRAME |
| Transport.SealVerifies | src/netcode.c:672-678 | after transport checksum and IP checksum, in this order, the receiver's tests on the bytes succeed: header, and for protocol 6 addresses, protocol, length and segment, sum up to all ones; UDP carries no checksum |
| Transport.SealKeeps | src/netcode.c:672-678 | and only the bytes of the checksums have changed |
| Transport.SentKeepsFrame | src/netcode.c:529-679 | a whole job leaves the size off by a tag iff its frame operation tags twice |
| Transport.SentVerifies | src/netcode.c:877-902 | what nat and the forwarding functions inject passes those tests, whatever they rewrote |
| Transport.InwardMeaning | src/netcode.c:840-899 | forward_ext2hih writes address and port, moves a flagged acknowledgement into the HIH's numbers, sets the checksums, and changes no other byte of the datagram |
| Transport.OutwardMeaning | src/netcode.c:909-963 | forward_hih2ext writes address and port, moves the sequence number into the attacker's numbers, puts the fixed options, sets the checksums, and changes no other byte of the datagram |
| Transport.Seal | src/netcode.c:50-73 | the two checksums in place equal their specification |
| Transport.Nat | src/netcode.c:529-679 | nat in place, to its end, equals its specification; it gives up before the checksums on an invalid destination |
| Transport.ForwardToHih | src/netcode.c:840-899 | forward_ext2hih in place, to its end, equals its specification |
| Transport.ForwardToExt | src/netcode.c:909-963 | forward_hih2ext in place, to its end, equals its specification |
| TransportRuns.EveryFrameVerifies | src/honeybrid.c:812-1006 | for every packet of every run, whatever routes, ports, numbers and options, the injected frame is whole and passes the receiver's tests on its bytes |
| Frame.ReplayedTag | src/netcode.c:854-866 | the tag of a recorded packet when it is replayed, for all four combinations of tagged links |
| Frame.Frame.constructor | src/connections.c:67-97 | the packet copied behind room for a tag, or at the front if it has one |
| Frame.Frame.MoveHeader | src/netcode.c:548 | the overlapping memmove of 14 header bytes |
| Frame.Frame.TranslateInbound | src/netcode.c:529-572 | nat in place for outside packets equals its specification |
| Frame.Frame.TranslateOutbound | src/netcode.c:573-679 | nat in place for inside packets equals its specification |
| Frame.Frame.PrepareForHih | src/netcode.c:840-866 | forward_ext2hih's frame work in place equals its specification |
| Frame.Frame.PrepareForExt | src/netcode.c:909-934 | forward_hih2ext's frame work in place equals its specification |
| RateLimit.Limiter.Control | src/mod_control.c:104-146 | the record written back and the verdict, with nothing else in the table changed |
| RateLimit.SourcesIndependent | src/mod_control.c:104-146 | over any trace a source's record depends on its own packets only |
| RateLimit.WindowBound | src/mod_control.c:104-146 | each window lets exactly its first max_packet packets through |
| RateLimit.WindowStartsApart | src/mod_control.c:121-130 | windows of one source start more than expiration apart |
| RateLimit.IntervalBound | src/mod_control.c:104-146 | any interval of length expiration holds at most 2 * max_packet - 1 accepted packets of a source, max_packet + 1 if expiration is 0 and that is less, none for a limit below 1 |
| RateLimit.BoundIsReached | src/mod_control.c:104-146 | for every limit and every expiration a clocked trace reaches that number |
| Rules.BuildSubtree | src/decision_engine.c:48-111 | the chain of one group: its first one or two modules along true branches, no false branches |
| Rules.LinkChain | src/decision_engine.c:142-157 | all nodes of a finished chain get the next head as their false branch, true branches untouched |
| Rules.CreateTree | src/decision_engine.c:120-165 | the linked graph of the whole equation, and the node handed back is its last group's head |
| Rules.Decide | src/decision_engine.c:191-253 | from any group's head the walk over the shared graph computes left-to-right short-circuit OR of ANDs with DEFER aborting, backend suggestion included, and ends |
| RuleLaws.RuleByCalls | src/decision_engine.c:191-253 | a rule decides what the last module called returned, and adopts the last suggestion in force when a module accepted, or what had been adopted before; a rejecting or deferring call adopts nothing |
| RuleLaws.InstalledByCalls | src/decision_engine.c:317-326 | decision and backend of an installed rule, told by the calls it makes |
| RuleLaws.RuleTruthIff | src/decision_engine.c:191-253 | for modules without state a rule accepts, or defers, iff the first group that does not reject does, and rejects iff all groups do |
| Rules.GraphFaithfulIff | src/decision_engine.c:60-82 | the graph means what the equation says, for all modules, iff no group has more than two conjuncts |
| Rules.InstalledFaithfulIff | src/decision_engine.c:157-163 | the node handed back means the equation iff it has one group of at most two conjuncts |
| Rules.CompileAndDecide | src/decision_engine.c:120-253 | compiling and deciding evaluates the installed part of the equation |
| Rules.ChooseBackend | src/decision_engine.c:259-285 | without a picker each handler's linked rule is walked in turn with one shared decision: the first whose rule accepts is chosen, never one without a rule; otherwise none accepts and the last rule's decision is left |
| Rules.AskOne | src/decision_engine.c:259-285 | a handler's turn decides what its rule means, whatever was suggested before; a handler without a rule changes nothing |
| Rules.LeftoverIsLast | src/decision_engine.c:259-285 | the decision left after the traversal is that of the last handler with a rule, or none if there is no such handler |
| Keys.PackInjective | src/structs.h:239-251 | two connection keys overlay the same 128-bit integer iff they are equal |
| Keys.PackPinInjective | src/structs.h:228-237 | the same for pin keys |
| Keys.ConnKeyOrder | src/convenience.c:66-72 | the comparison is a total order whose ties are equal keys |
| Keys.PinKeyOrder | src/convenience.c:58-64 | the same for pins |
| Keys.PackFits | src/structs.h:239-251 | a packed connection key uses 116 bits |
| Tracking.CreateKeepsIndexIff | src/connections.c:746-748 | opening a connection keeps the six trees equal to the maps of the live connections iff none of its entries was taken |
| Tracking.RedirectKeepsIndexIff | src/connections.c:1447-1458 | redirecting keeps them iff the new reply key is not another connection's |
| Tracking.UpdateKeepsIndex | src/connections.c:1121-1148 | updating keeps them |
| Tracking.RemoveKeepsIndex | src/connections.c:1150-1225 | removing keeps them, unconditionally |
| Tracking.LookupIsSearch | src/connections.c:420-526 | lookup finds a connection iff it owns the packet's key in the first tree of the order where anyone does |
| Openings.FoundIsOwn | src/connections.c:420-526 | a packet is only taken for one of a connection whose headers it carries, as the initiator's packet or as an answer to it |
| Openings.OwnIsFound | src/connections.c:420-526 | every packet that carries the headers of a live connection, from either side, before or after redirection, finds it, if it carries no other's |
| Openings.InboundFirst | src/connections.c:436-468 | an attacker's connection comes before one of the same headers that a honeypot began |
| Openings.Opener | src/connections.c:581-1118 | over every run each live connection was opened by one of its events: with that packet's headers, on a SYN if TCP, and from no honeypot to another |
| Openings.OpensIff | src/connections.c:581-1118 | over every run, exactly when a packet of no known connection opens one |
| Openings.CallsOutAsTarget | src/connections.c:897-912 | over every run with exclusive HIHs, a backend with a connection redirected to it calls out under that connection's target address |
| Openings.CallsOutAsDefault | src/connections.c:903-908 | with neither a redirected connection nor an earlier call on its pin, it calls out under the default route's address |
| Openings.CommPinDecides | src/connections.c:801-816 | over every run, the LIH and shared backends call out under the very address they call if a live connection holds its comm pin, and under the default route's address otherwise |
| Openings.RefusedIff | src/connections.c:1405-1413 | over every run an exclusive backend serving another target address is refused, and one nobody has a reference on is not |
| Openings.AccessIsLastSeen | src/connections.c:1121-1148 | over every run the access time of a connection is the time of its last packet |
| Openings.CollectedIff | src/connections.c:1227-1247 | so the cleaner collects a connection iff more than the delay has passed since its last packet |
| Tracking.PinsUndone | src/connections.c:1168-1210 | releasing a new connection's pin key undoes by value what opening it did to the pins, except the leaked target pin |
| Tracking.FounderIffFounds | src/connections.c:977-984 | a new connection's key is the internal pin tree's own iff the connection made the pin |
| Tracking.RemoveUndoesCreateIff | src/connections.c:1150-1225 | removing a connection just opened restores the table, up to the ID counter and with nothing freed twice, iff it took no target pin and made no internal pin |
| TrackingRuns.AlwaysIndexed | src/connections.c:420-526 | in every reachable table the trees are exactly the maps generated by the live connections, if no entries collided |
| TrackingRuns.NoEntryDangles | src/connections.c:1150-1225 | collisions or not, in every reachable table each tree entry leads to a live connection that files it |
| TrackingRuns.AlwaysConserved | src/connections.c:735-772 | over every defined run each comm pin and each internal pin counts its holders, and exists iff there is one; with exclusive_hih on no comm pin has a key without a target address, and only such keys are given up |
| IntraPins.AlwaysFounded | src/connections.c:977-984 | in every defined run the connection whose key the tree holds for an internal pin is alive and holds that pin |
| IntraPins.FounderIff | src/connections.c:977-984 | a connection's key is the tree's iff some event of the run opened it with nobody pinned before |
| IntraPins.FirstSharedFree | src/connections.c:1201-1209 | exactly when a run first frees a key of the internal pin tree, or frees one twice: it removes the first connection pinned to an exclusive internal handler |
| IntraPins.FoundedForGood | src/connections.c:1201-1209 | an internal pin is there in every defined continuation, for the same address and under the same connection's key |
| TargetPins.ReleaseKeepsCount | src/connections.c:1213-1222 | one release keeps a target pin's count exact whichever tree entry is deleted at zero, and leaves a freed entry iff it is the last under another key |
| TargetPins.AlwaysExact | src/connections.c:1400-1433 | over every run each target pin counts the live connections redirected under it and the references its HIH's calls took, exactly |
| TargetPins.AlwaysTargetsPinned | src/connections.c:1400-1433 | over every run with exclusive HIHs each redirected connection's backend is pinned to its target address |
| TargetPins.ExclusiveBackend | src/connections.c:1400-1458 | connections redirected to one VLAN and address share one target address, and equal reply keys mean equal attacker keys |
| TargetPins.ExclusiveDivertApartIff | src/connections.c:1400-1458 | with exclusive HIHs a permitted redirection takes another connection's entry iff that one expects the same reply from its front handler |
| TargetPins.FreedIff | src/connections.c:1213-1222 | in every reachable table an entry is freed iff some event of the run removed the last connection redirected under it, no reference having been given away |
| TargetPins.FirstFreedRead | src/connections.c:1400-1415 | exactly when a run first finds a freed pin: an event other than a removal searches for one with such an event behind it |
| TargetPins.NothingFreedIff | src/connections.c:1213-1222 | no search of any key can pass over freed memory iff no pin has seen its last release |
| TargetPins.FreedForGood | src/connections.c:1213-1222 | no defined event takes a freed entry out again |
| TargetPins.SharedBackendsFreeNothing | src/connections.c:1400 | with exclusive_hih off there are no target pins and nothing freed stays |
| TrackingRuns.AlwaysIntrasPinned | src/connections.c:969-998 | in every defined run each live connection behind an exclusive internal handler is pinned to its target address |
| TrackingRuns.ExclusiveIntra | src/connections.c:969-1015 | in every defined run equal internal reply keys mean equal target addresses, and equal HIH keys iff the backends share a VLAN |
| TrackingLaws.ClashIsOnReply | src/connections.c:746-748 | after a failed lookup only the new connection's reply entry can be another's, or its own entry where a LIH's packet came with another VLAN tag |
| TrackingLaws.InboundClash | src/connections.c:718-748 | exactly which live connection a new one from outside collides with |
| TrackingLaws.FlowAffinity | src/honeybrid.c:98-104 | every packet that resolves to an external-facing connection, before or after redirection, maps to the one queue of its remote address, for every thread count |
| TrackingLaws.EarlyLabel | src/connections.c:440-468 | before redirection an inside packet is labelled HIH iff it came in on another interface than the front handler's |
| TrackingLaws.LateLabel | src/connections.c:440-468 | after redirection an inside packet is labelled LIH iff it has the front handler's reply key and came in on its interface |
| TrackingLaws.BackendLabel | src/connections.c:440-468 | a backend's reply is labelled LIH iff the backend shares the front handler's address, VLAN and interface |
| TrackingLaws.RemoveAfterRedirect | src/connections.c:1150-1225 | removing a redirected connection equals removing it before, except that a target pin it created leaves its freed entry in the tree |
| TrackingLaws.UndoneInRuns | src/connections.c:1150-1225 | in every run whose events do not collide, removing what was just opened restores the table iff it took no target pin and made no internal pin; the removal is defined iff it made none |
| TrackingLaws.SecondRedirectReadsFreed | src/connections.c:1213-1222 | after one exclusive redirection and its expiry, every redirection to that HIH, after any defined run, reads freed memory |
| TrackingWitnesses.RepliesCollide | src/connections.c:718-748 | a run in which two attackers' connections share their reply key, and the first has lost its entry |
| TrackingWitnesses.FreedPinIsRead | src/connections.c:1213-1222 | a run of four events after which a redirection finds the freed pin |
| TrackingWitnesses.ReferenceLeaks | src/connections.c:890-900 | a run that ends without connections but with the HIH pinned, and refused to every other target address |
| TrackingWitnesses.CallBackIsNotPinned | src/connections.c:801-816 | a run in which the LIH calls its attacker back and shows the default route's address |
| TrackingWitnesses.VlansCollide | src/connections.c:969-1015 | a run in which two HIHs on two VLANs share their reply key at an exclusive internal handler |
| TrackingWitnesses.KeyFreedTwice | src/connections.c:1201-1314 | one call to an exclusive internal handler, and its removal, which frees the connection's pin key twice |
| TrackingWitnesses.KeyFreedInUse | src/connections.c:1201-1314 | the same with a second holder: the pin stays in the tree under a freed key |
| Tracker.Tracker.ConnLookup | src/connections.c:408-578 | the if-chain over the trees equals the ordered search |
| Tracker.Tracker.CreateConn | src/connections.c:581-1118 | the branches by origin equal Create on the whole table |
| Tracker.Tracker.OpenInbound | src/connections.c:711-772 | pin and entries of a connection from outside |
| Tracker.Tracker.OpenFromLih | src/connections.c:774-844 | the source address, pin and entries of the LIH's outgoing connection |
| Tracker.Tracker.OpenFromHih | src/connections.c:846-963 | the source address, pin and entries of an HIH's outgoing connection, exclusive or not |
| Tracker.Tracker.OpenInternal | src/connections.c:963-1028 | exclusivity check, pin and entries of a connection to an internal host |
| Tracker.Tracker.PinInternal | src/connections.c:969-998 | the internal pin made under the connection's own key, shared, or refused |
| Tracker.Tracker.SetupRedirection | src/connections.c:1400-1458 | target pin and reply key of a redirection, or refusal |
| Tracker.Tracker.UpdateConn | src/connections.c:1121-1148 | only the access time changes |
| Tracker.Tracker.RemoveConn | src/connections.c:1150-1225 | entries, pins and connection removed as Remove says |
| Tracker.Tracker.ReleaseTargetPin | src/connections.c:1213-1222 | the live target pins and the freed entries left after one reference is given back |
| Tracker.Tracker.FreeConn | src/connections.c:1263-1320 | the connection is gone, and it is noted if its pin key was the internal pin tree's |
| Tracker.Tracker.CollectExpired | src/connections.c:1343-1352 | the three traversals list exactly the expired connections, none twice |
| Tracker.Tracker.RemoveCollected | src/connections.c:1355-1356 | exactly the collected connections whose lock is free go, and the trees stay exact |
| Locking.StepKeepsInv | src/connections.c:420-578 | every step of any thread or the cleaner keeps the protocol's invariant |
| Locking.NoUseAfterFree | src/connections.c:1150-1159 | no interleaving has a thread hold or wait for a freed connection, or the cleaner about to touch one |
| Locking.MutualExclusion | src/connections.c:571-577 | no two threads own one connection's lock |
| Locking.NoDeadlock | src/connections.c:1349-1362 | unless everyone is idle, some participant can advance what it began |
| Locking.ClosingFindsLocksFree | src/honeybrid.c:505-535 | with all threads idle, the blocking removal on closing finds every lock free |
| SweepRuns.AlwaysAccounted | src/connections.c:1150-1225 | over every run each connection made is in exactly one place: with the thread that made it, in the trees, or freed |
| SweepRuns.SweepFrees | src/connections.c:1349-1362 | over every run each collected connection has its turn once; the ones no thread is at work on then leave the trees and are freed, the others stay; when the cleaner sleeps all have had it |
| SweepRuns.IdleIsFreed | src/connections.c:1349-1362 | when the cleaner sleeps, a collected connection is freed if it was idle at its turn and in the trees if it was not |
| Locking.TogetherInTreesIff | src/connections.c:1447-1458 | in every reachable state two participants are in the connection trees at once iff one files a redirection's key and the other does too or holds connlock |
| Locking.LookupDuringRefile | src/connections.c:1447-1458 | a run in which one thread files a redirection's key while another looks up |
| Gateway.Connection.Handle | src/honeybrid.c:800-1006 | the dispatch by origin and state, including what is sent, recorded and crashed on, equals its specification |
| Gateway.Connection.ProcessPacket | src/decision_engine.c:290-447 | verdict adjusted by state and destination, then the state change; only callable in INIT, DECISION or CONTROL |
| Gateway.Connection.SetupRedirection | src/connections.c:1436-1487 | state, reset of the LIH, the forwarding loop and the first gate |
| Gateway.Connection.ForwardToGate | src/connections.c:1465-1481 | the loop stops at the first packet not the attacker's, or the end, having forwarded everything before |
| Gateway.Connection.ForwardToGateOrEnd | src/netcode.c:1092-1116 | the same for replay's loop, which stops on the last packet |
| Gateway.Connection.ReplayPkt | src/netcode.c:1075-1127 | refuse, crash, complete or go on to the next gate |
| Gateway.Connection.TestExpected | src/netcode.c:1158-1237 | passes iff protocol, sequence number (except on SYN) and acknowledgement match; problems and clock difference recorded |
| Gateway.Connection.DefineExpected | src/netcode.c:1136-1153 | the expectation of a gate |
| Gateway.Connection.ResetFront | src/netcode.c:1043-1066 | one reset, built on the last recorded packet, iff TCP and a packet of the LIH was recorded |
| Gateway.Connection.StorePkt | src/connections.c:204-228 | appended iff there are backends and room |
| GatewayRuns.DispatchedState | src/honeybrid.c:812-1006 | the next state, crash and handler of every packet, whatever the engine does |
| GatewayRuns.DispatchedEngine | src/honeybrid.c:812-1006 | what each packet may change of the recording and the replay, and exactly when a packet is recorded |
| GatewayRuns.StatesMoveLegally | src/decision_engine.c:374-444 | the only state changes there are: FORWARD only from REPLAY by the HIH, REPLAY only from DECISION by the attacker, CONTROL only from INIT or DECISION by an HIH |
| GatewayRuns.AtMostThreeChanges | src/convenience.c:74-82 | over every run states strictly climb a rank, so there are at most three changes |
| GatewayRuns.FinalStatesAbsorb | src/honeybrid.c:800-1006 | PROXY, FORWARD and DROP are for good, and cannot crash |
| GatewayRuns.AlwaysInPlace | src/honeybrid.c:800-1006 | between packets INIT, DECISION, REPLAY and FORWARD occur only for connections from outside, which are never in CONTROL |
| GatewayRuns.ControlledLink | src/honeybrid.c:915-920 | every packet of the HIH that passes in CONTROL goes to the external link, whatever the connection's destination |
| GatewayRuns.OwnLinkIff | src/honeybrid.c:900-947 | over every run of a connection an HIH began, a packet let through goes to its destination's own link iff that is outside, or it is the first packet, or the state is PROXY; otherwise to the external link |
| GatewayRuns.AttackerHearsOneHoneypot | src/honeybrid.c:812-1006 | from the trigger on no packet of the LIH reaches the attacker, and none of anybody until the replay is complete |
| Delivery.AttackerHears | src/honeybrid.c:812-1006 | over every run of a connection from outside the attacker is sent exactly what the LIH said until redirection or drop, unchanged, and then what the HIH says in FORWARD, shifted by one difference; in order, each once |
| Delivery.FrontHears | src/honeybrid.c:970-1000 | and the LIH exactly the attacker's packets that pass: by verdict in INIT and DECISION, all in PROXY |
| Delivery.BackHears | src/honeybrid.c:983-1000 | and the HIH exactly the attacker's part of the recording and what the attacker says once forwarding has begun |
| Delivery.StepAdds | src/honeybrid.c:812-1006 | everything one packet makes the gateway send on such a connection, resets included: one on the last recorded packet at the trigger iff the recording holds one of the LIH |
| Delivery.AttackerDecides | src/decision_engine.c:374-444 | the next state of an undecided connection, from the verdict on the attacker's packet |
| Delivery.ControlDecides | src/decision_engine.c:345-367 | in CONTROL, from verdict and destination: the next state, and whether the packet is sent; to an internal host only an accept lets it live |
| Delivery.FirstCallDecides | src/honeybrid.c:921-947 | the same for the first packet of a connection an HIH begins, denied or not |
| Delivery.FateIff | src/decision_engine.c:374-444 | over every run, exactly which events have a connection from outside dropped, and which have it proxied |
| InsideDelivery.AlwaysInside | src/honeybrid.c:800-1006 | connections that honeypots begin never crash, and are in CONTROL, PROXY or DROP between packets |
| InsideDelivery.StepSends | src/honeybrid.c:812-1006 | everything one packet makes the gateway send on such a connection |
| InsideDelivery.HoneypotHears | src/honeybrid.c:850-1000 | over every run of such a connection the honeypot hears exactly the outside's packets in CONTROL and PROXY and the internal host's in PROXY, the other honeypot nothing, and what is sent out is exactly what the rule lets pass |
| Replay.NextGateIsFirst | src/connections.c:1470-1477 | the gate found is the first packet not the attacker's |
| Replay.BegunIsFaithful | src/connections.c:1465-1487 | after the first stretch exactly the attacker's packets before the position have been forwarded, in order |
| Replay.AdvancedIsFaithful | src/netcode.c:1089-1122 | passing a gate keeps that; on the last lap all of the attacker's packets have been forwarded |
| Replay.AcceptedAnswerIsProgress | src/netcode.c:1087-1122 | each accepted answer lowers the number still missing by exactly one, a refused one leaves it |
| Replay.WaitsIffGates | src/connections.c:1483-1487 | the replay begins to wait iff the recording holds a gate, and then for as many answers as it holds gates |
| Replay.CompletionNeeds | src/netcode.c:1087-1122 | every completing series of answers has at least one for each gate |
| Replay.AnswersDecide | src/netcode.c:1087-1122 | answered as recorded, a replay completes with exactly one answer a gate, or crashes if nothing follows the last gate |
| Replay.CompletesIff | src/netcode.c:1087-1122 | exactly which replays can complete and which can run past their recording, over all series of answers |
| Replay.ComparesIff | src/netcode.c:1136-1182 | a gate passes exactly the later TCP packets on which the two conversations agree iff it was set under the delta of their SYNs |
| ReplayRuns.AlwaysSound | src/connections.c:1460-1487 | in every reachable state position, gate, expectation, forwarded packets and buffer agree |
| ReplayRuns.ReplayIsFaithful | src/netcode.c:1089-1122 | while replaying exactly the attacker's packets of the recording up to the position were forwarded; on entry to FORWARD exactly all of the recording's; the buffer is fixed |
| ReplayRuns.NothingLostIff | src/connections.c:212-221 | on entry to FORWARD the HIH has been sent exactly what the attacker sent in the events up to and with the trigger, iff the buffer had room for all that was offered |
| ReplayRuns.OfferedIsReceived | src/honeybrid.c:973-980 | until a connection is decided it has been offered exactly the attacker's packets among the events, in order |
| ReplayRuns.TriggerIsLast | src/honeybrid.c:973-980 | a redirected connection has been offered what it had been before the trigger, and then the trigger |
| ReplayRuns.RunIsJourney | src/honeybrid.c:886-896 | during a replay any mix of packets does what the HIH's packets alone would do to the engine |
| ReplayRuns.RedirectionCompletesIff | src/netcode.c:1089-1121 | from every reachable replay: completable iff a gate was recorded and the recording ends in the attacker's packet; can crash iff it ends in a gate; waits for ever without one; room for the trigger suffices |
| CrashRuns.CrashedIff | src/netcode.c:1089-1121 | over every configuration and run: a run has crashed iff some event passed the gate at the end of a recording, or was a denied TCP packet of an HIH on a connection from outside in INIT or DECISION |
| CrashRuns.PastTheEndMeansFull | src/connections.c:212-221 | the first kind takes more packets offered than the buffer holds, the last one recorded being the LIH's |
| CrashRuns.CrashesOnlyWhenFull | src/honeybrid.c:921-931 | every crash comes at an event that is denied or finds more packets offered than the buffer holds |
| ReplayRuns.OneConversation | src/netcode.c:942-943 | on every established redirection whose HIH sent a SYN, streams and acknowledgements are translated by the distance of the two SYNs |
| ReplayRuns.AlwaysInStep | src/honeybrid.c:889-893 | over every run delta is zero before the HIH's SYN and the distance of the two SYNs after it |
| ReplayClock.ClockFollowsRecording | src/netcode.c:1196-1217 | over every run a clock difference is reported iff some accepted answer carried another timestamp than the packet recorded; the one kept is the last, and carries every later timestamp of the HIH onto the recorded clock |
| ReplayClock.StripsIff | src/netcode.c:1203-1208 | over every run timestamps are to be stripped iff some accepted answer carried one where the packet recorded has none |
| ReplayClock.ClockShown | src/netcode.c:496-516 | over every run, once an answer was out of step and unless timestamps are stripped, a segment with the HIH's clock some ticks after that answer leaves with the recorded clock as many ticks after the packet recorded |
| Numbers.FrontNumber | src/honeybrid.c:820-848 | over every run lih_syn_seq is the number of the last SYN the LIH sent on the connection before redirection |
| Numbers.BackNumber | src/honeybrid.c:886-893 | over every run the number delta is taken from is that of the last SYN the HIH sent during the replay |
| Numbers.EveryAckTranslated | src/netcode.c:875-880 | over every run each packet forwarded to the HIH, in replay or after, acknowledges there the byte the attacker acknowledged; without the flag nothing is changed |
| ReplayRuns.GateComparesIff | src/netcode.c:1136-1182 | in every reachable replay whose HIH has sent a SYN, the gate compares the two conversations iff it was set under that SYN, or before any SYN and the numbers coincide |
| ReplayRuns.UpToDateWhile | src/netcode.c:1117-1120 | once set under the SYN in force, the gates of a replay stay so for as long as the HIH repeats no SYN with another number |
| GatewayWitnesses.ReplayCrashes | src/netcode.c:1089-1121 | a run of four packets that dereferences a null pointer, with a buffer of two |
| GatewayWitnesses.DenialCrashes | src/honeybrid.c:921-931 | a run of two packets that dereferences a null back_handler, with uninvited HIHs denied |
| GatewayWitnesses.TriggerLost | src/connections.c:212-221 | a run of five packets that reaches FORWARD with the trigger neither recorded nor sent, with a buffer of three |
| GatewayWitnesses.ReplayWaitsForEver | src/connections.c:1465-1487 | a run of two packets from which every continuation stays in REPLAY |
| GatewayWitnesses.InternalPacketGoesOut | src/honeybrid.c:915-947 | a connection to an internal host whose second packet goes to the external link |

## Left out

Assumptions of the model:

- Rule modules are functions of the module number, the number of calls before and the backend suggestion; `mod_vmi`,
  `mod_hash`, `mod_random` and unknown module names are not modelled.
- `mod_dns_control` and `switch_conn_to_intra`, which change connections inside a rule evaluation, are excluded.
- Connections begun by internal hosts (src/connections.c:1032-1108), which never get a back_handler, and the early
  exit for undefined internal addresses (src/connections.c:860-870) are excluded.
- Keys and pins are values and GTrees finite maps. Memory is modelled where the code shares or leaves it: the freed
  entries of the target pin tree, and the keys the internal pin tree shares with connections. A search for another key
  that passes over a freed entry compares as if its key were still there; `TargetPins.NothingFreedIff` says when there
  is none to pass.
- The keys of a connection are functions of its first packet, because they are assigned once.
- `find_target` and the other searches over the configuration are the `Source` of a packet. Attackers do not write to 0.0.0.0.
- The pin lookups of `create_conn` and `setup_redirection`, made without `connlock`, are single steps, and `Locking` does not
  say what a tree looks like while two participants change it.
- A null pointer is modelled only where `GatewayRuns.Derefs` names it; configuration pointers (front handler, default
  route) are taken to be set.

Not modelled:

- Packet capture and injection, ARP and ICMP replies, broadcast and MAC filters, logging, databases, XML-RPC,
  configuration parsing and signals; a send is an entry in a ghost log.
- The payload comparison of `test_expected`, which only sets a reporting bit, and the per-state statistics.
- Splitting an equation with regular expressions: `Rules` starts from the groups.
- The back picker's path in DECISION: it is part of the advice a connection gets.
- `mod_control` running in several threads at once, and overflow of its counter.
- UDP checksums, which are set to zero, and connections in state INVALID, which none is in.
- Time: `access_time` is an integer the caller supplies.

Stated weaker than the code, or on less than it accepts:

- Checksum.SetIpChecksum: IP headers with options are summed over 20 bytes by the code too, so the claim is about headers without.
- Checksum.TcpChecksum: assumes an IP header of 20 bytes and a payload of at most BUFSIZE bytes, the size of the buffer it is copied into.
- Checksum.SetTcpChecksum: as TcpChecksum.
- TcpOptions.GetTimestamps: assumes an area on which the loop ends (TerminatesIff) and a timestamp inside the segment.
- TcpOptions.SetTimestamps: as GetTimestamps.
- TcpOptions.StripTimestamps: assumes an area on which its loop ends (TerminatesIff).
- TcpOptions.FixTimestamps: assumes areas on which the walkers it calls end.
- TcpOptions.ShiftFollowsRecordedClock: takes the sum of two ints to wrap around, which C leaves undefined; ShiftIsSignedSum says when it overflows.
- Frame.Frame.TranslateInbound: only the frame and the IP addresses; Transport.Nat goes on to the checksums.
- Frame.Frame.TranslateOutbound: as TranslateInbound.
- Frame.Frame.PrepareForHih: only the frame and the IP address; Transport.ForwardToHih goes on to the end. back_handler is set.
- Frame.Frame.PrepareForExt: only the frame and the IP address; Transport.ForwardToExt goes on to the end.
- Transport.Nat: assumes that a TCP datagram has no IP options, was captured whole and fits the checksum's scratch buffer.
- Transport.ForwardToHih: as Nat.
- Transport.ForwardToExt: as Nat; what fix_tcp_timestamps leaves in the options is a parameter, see TcpOptions.FixTimestamps.
- TransportRuns.EveryFrameVerifies: as Nat; a job that gives up on an invalid destination sets no checksums.
- TrackingRuns.AlwaysIndexed: assumes that no event files an entry another connection holds; without it the property is false, see CreateKeepsIndexIff.
- TrackingRuns.AlwaysConserved: with exclusive_hih on, nothing is claimed for keys without a target address beyond that no comm pin has one.
- Tracker.Tracker.CreateConn: connections begun by internal hosts and the early exit for undefined internal addresses are not modelled; with exclusive HIHs the pin it searches has not been freed.
- Tracker.Tracker.OpenFromHih: the early exit for undefined internal addresses is not modelled.
- Tracker.Tracker.SetupRedirection: with exclusive HIHs the pin it searches has not been freed.
- Tracker.Tracker.UpdateConn: the per-state statistics are not modelled.
- Gateway.Connection.ProcessPacket: the rules and the back picker are reduced to a verdict and to whether a backend is ready; `Rules` models the rules themselves.
- Gateway.Connection.TestExpected: the payload comparison, which only sets a reporting bit, is not modelled.
- Gateway.Connection.DefineExpected: the expected payload is not modelled.
- ReplayRuns.RedirectionCompletesIff: the buffer limit is positive, as the configuration makes it.
