# Models of the CarFi measurement system

CarFi drives a Wi-Fi client from a moving car, uploads its logs and analyses them on a server. This
project models the parts of its code whose correctness is not visible from one function at a time,
and proves what they promise. `dafny verify dfyconfig.toml` checks all of it.

| file | what it models |
|---|---|
| `BssTable.dfy`, `BssInvariant.dfy`, `BssEffects.dfy`, `BssHistory.dfy` | the table of known access points as a list of entries, what every operation keeps and leaves, and what its counters and order mean over whole histories |
| `BssStore.dfy` | the same table as it is stored: two linked lists of addresses, a counter, a growing index of the round, in-place moves and evictions, each method proved against the table |
| `AnqpSharing.dfy` | reference-counted data shared between entries |
| `Elements.dfy` | walkers over information elements (IEEE Std 802.11-2012, section 8.4.2.1) |
| `LogRows.dfy`, `WpaLog.dfy`, `RoamLog.dfy` | the two per-interface log parsers, against a reading of the rows |
| `TraceJoin.dfy`, `Pipeline.dfy` | the one-pass cursor join of the parsed lists, against a fresh scan, and its composition with the parsers |
| `AckAccounting.dfy` | bytes acknowledged, from wrapping and reordered acknowledgments (section 3.4 of RFC 9293) |
| `Collision.dfy` | the cursor-guided search for simultaneous connections and the cumulative distribution |
| `Framing.dfy`, `Uploader.dfy` | the upload's byte stream, and the upload as a protocol of sends, partial receives, deaths and rescans |
| `NeighborLearning.dfy`, `NeighborFile.dfy` | neighbour learning and its file |
| `ScanBudget.dfy` | the two-interval scan budget |
| `Rotation.dfy`, `Hlr.dfy` | rotating cursors (frequency probe, GSM triplets) and the 48-bit sequence number (3GPP TS 33.102 Annex C.3.2) |
| `PriorityGroups.dfy` | networks grouped by priority in chains |
| `Text.dfy`, `IntList.dfy` | numbers and addresses as text; parsing and printing of number lists |
| `Sequences.dfy` | shared vocabulary |

Code that works in place is modelled by classes and loops, each proved against a function on values;
the properties are lemmas about those functions over all inputs, all runs or all reachable states.

Conventions. Times are reals or integers. Linked lists are sequences of addresses into a map of live
allocations (`BssStore`), or of ids (`PriorityGroups`); an address is not handed out twice. Calls to
the driver, timers, the clock and the kernel become parameters. A log row or packet arrives already
matched and classified. Python exceptions are the `Raised` outcomes. Every lemma switches automatic
induction off: Dafny 4.11 assumes parts of its hypothesis for values of any type, and every
induction here is written out. In the upload protocol the stream is first in first out, a dead side
takes no more steps, a session that waits for ever on a closed stream counts as dead, and a file has
at most one live session; the digest is assumed to tell apart the contents that occur in a run. What
the stream carries of a file may be damaged there, while lengths, names and digests are not.

Where the code does less than its documentation or its caller expects, the code is kept, an example
is given, and the exact condition is proved:

- the age flush leaves its loop at the first recent entry: it equals the documented filter exactly
  when no stale entry stands behind a recent unused one, and over a run when results arrive in the
  order of their update times (`FlushByAgeIff`, `TimelyFlush`, `FlushByAgeLeavesOld`);
- a result outside the BSSID filter is entered again each time (`ResultKeysIff`,
  `DuplicatesOutsideFilter`);
- a block whose first row completes its connection has an end and no start, because index 0 counts
  as unset (`SomeHeadlessIff`, `HeadlessExample`);
- such an end ends the whole parse while a record is left to compare with it, and so does a window of
  zero length with two GPS points (`JoinIsFresh`, `LinkedIsFresh`, `NoStartRaises`, `ZeroLengthRaises`);
- what sits on an end that two windows share goes to one of them only, though each would have it on
  its own (`WithinAloneIff`, `FirstAloneIff`, `JoinIsAloneIff`, `SharedEndGivesOnce`);
- more than fifty matching results can make the neighbour relation asymmetric (`SymmetricIff`,
  `RunSymmetricIff`, `FiftyOneAsymmetric`);
- with equal intervals nothing rations short scans (`RationedIff`, `EqualIntervalsNeverStop`);
- equal times can hide a collision on an end of the window (`SearchIff`, `FoundIff`, `MissesTie`);
- numbers of ten digits can be cut off in print (`CutIff`, `TenDigitsCut`).

## Model

| member | source | states |
|---|---|---|
| Reltimes.UpdateTime | client_tools/carfi/roamingd/hostap/wpa_supplicant/bss.c:254-269 | subtracting an age in milliseconds, with the borrow, is exact in microseconds and keeps a normalised time normalised |
| Reltimes.BeforeIsEarlier | client_tools/carfi/roamingd/hostap/wpa_supplicant/bss.c:803-823 | comparing seconds then microseconds is comparing the two times, for normalised times |
| BssTable.IgnoredIff | client_tools/carfi/roamingd/hostap/wpa_supplicant/bss.c:644-678 | a result is ignored exactly when it has no SSID element, its first one is over 32 octets, or is the P2P wildcard beside a P2P element; otherwise it is filed under an SSID or mesh ID of its elements, of at most 32 octets |
| BssTable.DropEntriesMembers | client_tools/carfi/roamingd/hostap/wpa_supplicant/bss.c:201-227 | removing by id keeps exactly the entries with another id |
| BssTable.KeptPair | client_tools/carfi/roamingd/hostap/wpa_supplicant/bss.c:201-227 | entries that stay keep their order in the list |
| BssInvariant.PurgeKeeps | client_tools/carfi/roamingd/hostap/wpa_supplicant/bss.c:201-227 | removing entries keeps the whole invariant, including mid-round, and removes nothing else |
| BssInvariant.MakeRoomKeeps | client_tools/carfi/roamingd/hostap/wpa_supplicant/bss.c:331-382 | after making room one more entry fits under the limit and no entry appears; which entry leaves is `BssEffects.NewAtLimit` |
| BssInvariant.AddKeeps | client_tools/carfi/roamingd/hostap/wpa_supplicant/bss.c:356-392 | adding an entry keeps the invariant |
| BssInvariant.ResultKeeps | client_tools/carfi/roamingd/hostap/wpa_supplicant/bss.c:621-715 | handling any scan result keeps the invariant |
| BssInvariant.StepKeeps | client_tools/carfi/roamingd/hostap/wpa_supplicant/bss.c:201-860 | every operation keeps the invariant: distinct ids below the next id, a duplicate-free round index naming exactly the live entries matched this round, at most the maximum number of entries |
| BssInvariant.RunKeeps | client_tools/carfi/roamingd/hostap/wpa_supplicant/bss.c:201-860 | the invariant holds after every run of scan rounds, flushes and association changes from the empty table |
| BssInvariant.EndRemovesExactly | client_tools/carfi/roamingd/hostap/wpa_supplicant/bss.c:769-793 | the end of a new-scan round removes exactly the covered, unused entries whose count reaches the limit, and counts the others |
| BssInvariant.VictimIsOldest | client_tools/carfi/roamingd/hostap/wpa_supplicant/bss.c:316-353 | the entry to evict is the first unconfigured one, else the first unused one; there is none exactly when all are configured and in use |
| BssInvariant.ProtectedStays | client_tools/carfi/roamingd/hostap/wpa_supplicant/bss.c:291-353 | no operation removes an entry that is both configured and in use |
| BssInvariant.ResultKeysIff | client_tools/carfi/roamingd/hostap/wpa_supplicant/bss.c:238-251 | a result keeps (BSSID, SSID) unique exactly when it passes the filter or its key is not among the entries left after making room |
| BssInvariant.StepKeys | client_tools/carfi/roamingd/hostap/wpa_supplicant/bss.c:238-251 | every operation with filtered results keeps (BSSID, SSID) unique |
| BssInvariant.RunKeys | client_tools/carfi/roamingd/hostap/wpa_supplicant/bss.c:238-251 | over whole runs of filtered results no two entries share (BSSID, SSID) |
| BssInvariant.FlushByAgeMisses | client_tools/carfi/roamingd/hostap/wpa_supplicant/bss.c:803-823 | a stale entry behind a recent unused one survives the age flush, though it should go |
| BssInvariant.FlushByAgeIff | client_tools/carfi/roamingd/hostap/wpa_supplicant/bss.c:803-823 | the early exit equals the full filter, for one limit, exactly when no stale entry stands behind a recent unused one |
| BssInvariant.FlushByAgeAlwaysIff | client_tools/carfi/roamingd/hostap/wpa_supplicant/bss.c:803-823 | it equals the full filter for every limit exactly when the unused entries are in order of last update |
| BssEffects.ResultCases | client_tools/carfi/roamingd/hostap/wpa_supplicant/bss.c:621-683 | an old or nameless result changes nothing; any other matches one entry, the first with its BSSID and SSID, or none, as it does outside the filter |
| BssEffects.MatchedResult | client_tools/carfi/roamingd/hostap/wpa_supplicant/bss.c:525-590 | a matched entry takes every field of the result, keeps its id and goes to the tail; the others stay as they are |
| BssEffects.NewBelowLimit | client_tools/carfi/roamingd/hostap/wpa_supplicant/bss.c:356-392 | below the limit a new entry goes to the tail with every field of its result, nothing leaves and the limit stays |
| BssEffects.NewAtLimit | client_tools/carfi/roamingd/hostap/wpa_supplicant/bss.c:316-392 | at the limit exactly the first unconfigured entry leaves, else the first that is not in use, and the limit stays |
| BssEffects.NewAmongProtected | client_tools/carfi/roamingd/hostap/wpa_supplicant/bss.c:376-392 | when all entries are configured and in use nothing leaves and the limit becomes the size plus one |
| BssEffects.LimitRaisedIff | client_tools/carfi/roamingd/hostap/wpa_supplicant/bss.c:376-382 | no event raises the limit but a new entry in a full table whose entries are all configured and in use |
| BssEffects.TooOldIff | client_tools/carfi/roamingd/hostap/wpa_supplicant/bss.c:628-642 | with normalised times a named result is dropped exactly when old results are ignored and its age reaches back before the trigger |
| BssEffects.FiledUnder | client_tools/carfi/roamingd/hostap/wpa_supplicant/bss.c:644-678 | a mesh ID of at most 32 octets takes the place of the SSID |
| BssEffects.FlushLeaves | client_tools/carfi/roamingd/hostap/wpa_supplicant/bss.c:846-860 | the flush leaves exactly the current entry and those of the BSSID in use or being joined |
| BssEffects.EndLeaves | client_tools/carfi/roamingd/hostap/wpa_supplicant/bss.c:769-793 | a new-scan round end leaves entries in use or not asked for alone, counts the missed ones, and removes those whose count reaches the limit |
| BssEffects.IdleEnd | client_tools/carfi/roamingd/hostap/wpa_supplicant/bss.c:775-776 | the end of a round without new results changes nothing |
| BssHistory.LastTouchIsLast | client_tools/carfi/roamingd/hostap/wpa_supplicant/bss.c:525-590 | the position kept for an entry is that of an event that matched it, and no later event did |
| BssHistory.StepEntries | client_tools/carfi/roamingd/hostap/wpa_supplicant/bss.c:525-793 | every entry after a step holds all fields of the result that the step matched it with, or is a previous one, counted if a round ended |
| BssHistory.MarksDateMatches | client_tools/carfi/roamingd/hostap/wpa_supplicant/bss.c:525-534 | an entry's round mark is older than the table's exactly when its last match precedes the last round start |
| BssHistory.MissCountIsMisses | client_tools/carfi/roamingd/hostap/wpa_supplicant/bss.c:525-793 | over whole runs the miss count is the number of finished new-scan rounds, since the last match, in which the entry was covered and not in use |
| BssHistory.RoundEndRemovesIff | client_tools/carfi/roamingd/hostap/wpa_supplicant/bss.c:769-793 | a round end removes an entry exactly when it is covered, not in use, and missed at least the configured number of rounds |
| BssHistory.RunInTouchOrder | client_tools/carfi/roamingd/hostap/wpa_supplicant/bss.c:525-590 | after every run the recency list is in the order of last matches |
| BssHistory.LastResultIs | client_tools/carfi/roamingd/hostap/wpa_supplicant/bss.c:525-590 | after every run an entry has the BSSID, SSID, frequency, update time and elements of the result that last matched it |
| BssHistory.LastUpdateIs | client_tools/carfi/roamingd/hostap/wpa_supplicant/bss.c:254-269 | after every run an entry's update time is the one that its last matched result reports |
| BssHistory.TimelyFlush | client_tools/carfi/roamingd/hostap/wpa_supplicant/bss.c:803-823 | after every run whose matched results have nondecreasing update times the age flush equals the full filter, for every limit |
| BssHistory.EvictsLeastRecent | client_tools/carfi/roamingd/hostap/wpa_supplicant/bss.c:316-353 | the entry to evict is the least recently matched unconfigured one, else the least recently matched unused one |
| BssHistory.EvictionIsLeastRecent | client_tools/carfi/roamingd/hostap/wpa_supplicant/bss.c:316-392 | over whole runs a result removes at most one entry, only from a full table, the least recently matched of its class, and leaves the limit and all others alone |
| BssHistory.DuplicatesOutsideFilter | client_tools/carfi/roamingd/hostap/wpa_supplicant/bss.c:238-251 | a run in which a result outside the BSSID filter is entered twice |
| BssHistory.FlushByAgeLeavesOld | client_tools/carfi/roamingd/hostap/wpa_supplicant/bss.c:803-823 | a run after which the age flush leaves an entry that is too old |
| BssLinks.Compact | client_tools/carfi/roamingd/hostap/wpa_supplicant/bss.c:204-216 | closing the gap in the round index removes exactly the one pointer |
| BssLinks.Repoint | client_tools/carfi/roamingd/hostap/wpa_supplicant/bss.c:564-571 | a reallocated entry is replaced at its place in the round index and nowhere else |
| BssLinks.RemoveGood | client_tools/carfi/roamingd/hostap/wpa_supplicant/bss.c:201-227 | unlinking an entry from both lists, the index and the current pointer leaves them describing the smaller table |
| BssLinks.MoveGood | client_tools/carfi/roamingd/hostap/wpa_supplicant/bss.c:525-590 | moving an entry to the tail, possibly at a new address, keeps both lists, the index and the current pointer in step |
| BssLinks.EnterGood | client_tools/carfi/roamingd/hostap/wpa_supplicant/bss.c:356-392 | a new entry at the tail of both lists keeps the id list strictly increasing |
| BssLinks.RecordedIff | client_tools/carfi/roamingd/hostap/wpa_supplicant/bss.c:685-693 | an entry is in the round index exactly when its address is among the used slots |
| BssLinks.FlushFromIs | client_tools/carfi/roamingd/hostap/wpa_supplicant/bss.c:846-860 | the removal loop over the list equals removing all unused entries at once |
| BssLinks.FlushAgeFromIs | client_tools/carfi/roamingd/hostap/wpa_supplicant/bss.c:803-823 | the early-exit removal loop equals removing the stale entries before its stop at once |
| BssLinks.EndSweeps | client_tools/carfi/roamingd/hostap/wpa_supplicant/bss.c:769-793 | counting and expiring one entry at a time equals counting all, then expiring all |
| BssStore.Store.constructor | client_tools/carfi/roamingd/hostap/wpa_supplicant/bss.c:834-839 | the table starts empty |
| BssStore.Store.Get | client_tools/carfi/roamingd/hostap/wpa_supplicant/bss.c:238-251 | finds the first entry with the key, for filtered BSSIDs |
| BssStore.Store.GetIdRange | client_tools/carfi/roamingd/hostap/wpa_supplicant/bss.c:972-981 | returns the live entry with the smallest id in the range, or none when there is none |
| BssStore.Store.KnownNow | client_tools/carfi/roamingd/hostap/wpa_supplicant/bss.c:291-304 | true exactly for configured SSIDs |
| BssStore.Store.Remove | client_tools/carfi/roamingd/hostap/wpa_supplicant/bss.c:201-227 | both lists, the index, the counter and the table lose exactly the entry |
| BssStore.Store.OldestUnknown | client_tools/carfi/roamingd/hostap/wpa_supplicant/bss.c:316-328 | finds the first unconfigured entry |
| BssStore.Store.OldestUnused | client_tools/carfi/roamingd/hostap/wpa_supplicant/bss.c:331-353 | finds the first unused entry |
| BssStore.Store.RemoveOldest | client_tools/carfi/roamingd/hostap/wpa_supplicant/bss.c:331-353 | evicts the victim, if there is one |
| BssStore.Store.EnsureRoom | client_tools/carfi/roamingd/hostap/wpa_supplicant/bss.c:376-382 | below the limit nothing happens; at it the evictable entry goes, or the limit becomes the size plus one when there is none |
| BssStore.Store.AddEntry | client_tools/carfi/roamingd/hostap/wpa_supplicant/bss.c:356-392 | the table gains the new entry at the tail under the next id |
| BssStore.Store.UpdateEntry | client_tools/carfi/roamingd/hostap/wpa_supplicant/bss.c:525-590 | the matched entry is rewritten with every field of the result at the tail, wherever its memory ends up |
| BssStore.Store.Record | client_tools/carfi/roamingd/hostap/wpa_supplicant/bss.c:698-714 | the index gains the entry, growing from 32 slots by doubling when full |
| BssStore.Store.UpdateScanRes | client_tools/carfi/roamingd/hostap/wpa_supplicant/bss.c:621-715 | one scan result has the specified effect on the linked structure |
| BssStore.Store.UpdateStart | client_tools/carfi/roamingd/hostap/wpa_supplicant/bss.c:602-608 | a round start advances the mark and empties the index |
| BssStore.Store.IncludedInScan | client_tools/carfi/roamingd/hostap/wpa_supplicant/bss.c:718-756 | true exactly when the scan covered the entry's frequency and SSID |
| BssStore.Store.CountOrExpire | client_tools/carfi/roamingd/hostap/wpa_supplicant/bss.c:778-789 | one entry is counted, and removed exactly when it expires |
| BssStore.Store.UpdateEnd | client_tools/carfi/roamingd/hostap/wpa_supplicant/bss.c:769-793 | a round end has the specified effect |
| BssStore.Store.FlushUnusedNow | client_tools/carfi/roamingd/hostap/wpa_supplicant/bss.c:846-860 | every entry not in use is removed |
| BssStore.Store.FlushByAgeNow | client_tools/carfi/roamingd/hostap/wpa_supplicant/bss.c:803-823 | the age flush has the specified effect, early exit included |
| BssStore.Store.Round | client_tools/carfi/roamingd/hostap/wpa_supplicant/bss.c:602-793 | a whole scan round on the linked structure is the same run of the table |
| AnqpSharing.Sharing.Alloc | client_tools/carfi/roamingd/hostap/wpa_supplicant/bss.c:57-65 | a new allocation has one user and changes what no other entry sees |
| AnqpSharing.Sharing.Free | client_tools/carfi/roamingd/hostap/wpa_supplicant/bss.c:142-173 | the allocation goes exactly with its last user, and no other entry sees a change |
| AnqpSharing.Sharing.Share | client_tools/carfi/roamingd/hostap/wpa_supplicant/interworking.c:2513-2546 | a sharing entry sees the other's data, and the count stays the number of pointers |
| AnqpSharing.Sharing.UnshareAlloc | client_tools/carfi/roamingd/hostap/wpa_supplicant/bss.c:114-135 | afterwards the entry has data of its own, the same as before; no other entry sees a change |
| AnqpSharing.Sharing.Store | client_tools/carfi/roamingd/hostap/wpa_supplicant/bss.c:107-112 | writing after unsharing reaches no other entry |
| Elements.ParseIsWellFormedPrefix | client_tools/carfi/roamingd/hostap/wpa_supplicant/bss.c:993-1011 | the elements found are a prefix of the buffer, followed by octets that start no element |
| Elements.ParseIsLongest | client_tools/carfi/roamingd/hostap/wpa_supplicant/bss.c:993-1011 | no longer sequence of elements is a prefix of the buffer |
| Elements.ParseFits | client_tools/carfi/roamingd/hostap/wpa_supplicant/bss.c:993-1011 | every payload found fits its length octet |
| Elements.FirstIff | client_tools/carfi/roamingd/hostap/wpa_supplicant/bss.c:993-1038 | the first match is a match of the sequence, and there is none exactly when nothing matches |
| Elements.Walk | client_tools/carfi/roamingd/hostap/wpa_supplicant/bss.c:993-1075 | the walkers return the offset of the first matching element, or report that there is none |
| Elements.CollectVendor | client_tools/carfi/roamingd/hostap/wpa_supplicant/bss.c:1088-1161 | the concatenated payloads of all matching vendor elements, never longer than the buffer, or none when empty |
| Elements.CollectIs | client_tools/carfi/roamingd/hostap/wpa_supplicant/bss.c:1088-1161 | a vendor element gives what follows its four octets of type |
| TraceJoin.SkipLoop | server_tools/analyzer/parser.py:187-188 | the cursor stops at the first record not before the window |
| TraceJoin.CollectSignals | server_tools/analyzer/parser.py:189-191 | all samples up to the end of the window, and the cursor after them |
| TraceJoin.MeasureDistance | server_tools/analyzer/parser.py:199-209 | the sum of consecutive distances in the window, none with fewer than two points |
| TraceJoin.PathTelescopes | server_tools/analyzer/parser.py:203-209 | each step of the path is measured once, from the earlier point to the later one |
| TraceJoin.SpeedIs | server_tools/analyzer/parser.py:211-214 | the speed over the hours of the window is the distance |
| TraceJoin.LinkOne | server_tools/analyzer/parser.py:177-251 | one association: all four cursors move as specified, or the parse raises |
| TraceJoin.LinkAll | server_tools/analyzer/parser.py:173-251 | the loop over the associations, first error included |
| TraceJoin.JoinIsFresh | server_tools/analyzer/parser.py:173-251 | for sorted lists and ordered windows the one-pass join raises exactly on a zero-length window with two GPS points or on an end without a start while some list has a record left; otherwise it gives every association what a fresh scan of the whole lists gives it |
| TraceJoin.JoinRaisesFirst | server_tools/analyzer/parser.py:173-251 | the exception is that of the first association at fault, and the ones before it join |
| TraceJoin.ZeroLengthRaises | server_tools/analyzer/parser.py:211-214 | two GPS points at the only instant of a window divide by zero |
| TraceJoin.NoStartRaises | server_tools/analyzer/parser.py:187-188 | an end without a start and one link sample compare with None |
| TraceJoin.WithinAloneIff | server_tools/analyzer/parser.py:173-251 | leaving out what came up to the previous end matters exactly when a record sits on a shared end |
| TraceJoin.FirstAloneIff | server_tools/analyzer/parser.py:216-251 | leaving out the DHCP records or TCP tests given already matters exactly when the last of them sits on the start of the window |
| TraceJoin.PickAlone | server_tools/analyzer/parser.py:216-251 | unless such a record was taken, a window is given the first record in it |
| TraceJoin.JoinIsAloneIff | server_tools/analyzer/parser.py:173-251 | a window takes the same records of all four lists as on its own exactly when none on an end that it shares was taken there; then the association is joined as on its own, and its samples are the same exactly when no link sample sits on a shared end |
| TraceJoin.JoinIsAlone | server_tools/analyzer/parser.py:173-251 | with strictly disjoint windows every association gets what it would get on its own |
| TraceJoin.SharedEndGivesOnce | server_tools/analyzer/parser.py:216-231 | a DHCP record on the end that two windows share goes to the first, though the second would have it on its own |
| TraceJoin.RecordsGivenOnce | server_tools/analyzer/parser.py:216-251 | no DHCP record or TCP test is attached to two associations |
| TraceJoin.SamplesGivenOnce | server_tools/analyzer/parser.py:186-214 | no instant is in the windows of two associations |
| LogRows.RowsOfNondecreasing | server_tools/analyzer/lib/wpa_supplicant.py:139-151 | an interface's rows keep the time order of the log |
| WpaLog.ParsingState.CloseBlock | server_tools/analyzer/lib/wpa_supplicant.py:161-173 | a disconnection keeps a named block and clears the state |
| WpaLog.ParsingState.Feed | server_tools/analyzer/lib/wpa_supplicant.py:146-186 | one row moves the parsing state as specified, or raises |
| WpaLog.Parse | server_tools/analyzer/lib/wpa_supplicant.py:132-191 | under any interleaving, parsing completes exactly when each interface's rows parse on their own, and the blocks are those of its own rows |
| WpaLog.ParseIsBlocks | server_tools/analyzer/lib/wpa_supplicant.py:139-186 | an interface's rows parse exactly when its state changes chain up, and give one block per disconnection of a named attempt, with first and last timestamps read off the rows |
| WpaLog.ConnectionEndsLast | server_tools/analyzer/lib/wpa_supplicant.py:55-83 | with nondecreasing times a connection ends at the last timestamp of its block, so T_conn_s <= T_conn_e |
| WpaLog.BlocksInOrder | server_tools/analyzer/lib/wpa_supplicant.py:55-83 | every timestamp of a block is at most every timestamp of a later one |
| WpaLog.HeadlessIff | server_tools/analyzer/lib/wpa_supplicant.py:76-83 | a block has T_conn_e without T_conn_s exactly when its first row completes the connection |
| WpaLog.SomeHeadlessIff | server_tools/analyzer/lib/wpa_supplicant.py:76-83 | a log yields such a block exactly when some kept block starts with that row |
| WpaLog.HeadlessExample | server_tools/analyzer/lib/wpa_supplicant.py:76-83 | a log of four rows that does |
| RoamLog.IntfResult.Feed | server_tools/analyzer/lib/roamingd.py:62-128 | one row moves an interface's state as specified, or raises |
| RoamLog.Parse | server_tools/analyzer/lib/roamingd.py:61-132 | under any interleaving, parsing completes exactly when each interface's rows parse on their own, with the records of its own rows |
| RoamLog.ReadableIff | server_tools/analyzer/lib/roamingd.py:62-109 | the event words that the state machine accepts are the prefixes of (Acquire Address? Lost)* |
| RoamLog.ParseIsRecords | server_tools/analyzer/lib/roamingd.py:62-128 | an interface's rows parse exactly when its events are such a prefix, and the records are those read off the rows between losses |
| RoamLog.RecordPerLoss | server_tools/analyzer/lib/roamingd.py:88-109 | one record per loss |
| RoamLog.ParsedInOrder | server_tools/analyzer/lib/roamingd.py:9-25 | with nondecreasing times T_dhcp_s <= T_dhcp_e = T_ip_s <= T_ip_e when an address was obtained, and records are in T_dhcp_s order |
| Pipeline.LeasesSorted | server_tools/analyzer/parser.py:164-173 | the DHCP records reach the join in time order |
| Pipeline.AssocsInOrder | server_tools/analyzer/parser.py:164-173 | the windows that the parser hands to the join are in order |
| Pipeline.StartedIff | server_tools/analyzer/parser.py:164-185 | every association that ended has a start exactly when no kept block starts with the row that completes its connection |
| Pipeline.LinkedIsFresh | server_tools/analyzer/parser.py:164-251 | from the two logs to the linked associations: the join completes exactly when no window is degenerate and no end without a start finds a record left, and then each association gets what a fresh scan gives it |
| Pipeline.LinkedUnlessDegenerate | server_tools/analyzer/parser.py:164-251 | when no kept block starts with its completion, only a degenerate window ends the join |
| Framing.UnpackPack | client_tools/data_uploader/uploader_client.py:49-50 | a packed length is read back |
| Framing.PackUnpack | client_tools/data_uploader/uploader_client.py:49-50 | every four bytes are the packing of a length |
| Framing.PackIsBigEndian | client_tools/data_uploader/uploader_client.py:61-63 | lengths are sent in network byte order, in two's complement |
| Framing.Socket.RecvMsg | server_tools/data_uploader/uploader_server.py:36-42 | exactly the asked bytes, however `recv` splits them |
| Framing.Socket.RecvFrame | server_tools/data_uploader/uploader_server.py:32-53 | a framed message comes back whole |
| Framing.Socket.RecvFile | server_tools/data_uploader/uploader_server.py:59-66 | the chunk loop receives exactly the announced bytes |
| Framing.Socket.ReceiveAll | server_tools/data_uploader/uploader_server.py:51-71 | the server receives the name, the file and the digest that were sent |
| Framing.Socket.SendFile | client_tools/data_uploader/uploader_client.py:72-77 | the chunk loop sends and hashes exactly the file |
| Framing.Socket.SendUpload | client_tools/data_uploader/uploader_client.py:61-83 | the bytes of an upload, and where a file too long for its length field stops it |
| Uploader.TakeTracks | server_tools/data_uploader/uploader_server.py:36-42 | received bytes are the next ones of the part under way |
| Uploader.TurnDigest | server_tools/data_uploader/uploader_server.py:69-77 | the digest the server compares is the one the client sent |
| Uploader.EchoIsDigest | client_tools/data_uploader/uploader_client.py:85-89 | a complete echo is the digest of what the server received |
| Uploader.TurnOkMove | server_tools/data_uploader/uploader_server.py:76-86 | a moved file is the tarball itself, byte for byte |
| Uploader.StepKeeps | server_tools/data_uploader/uploader_server.py:47-94 | every send, receive, turn, deletion or death keeps the protocol invariant |
| Uploader.RunKeeps | client_tools/data_uploader/uploader_client.py:55-107 | the invariant holds after every run with any fragmentation, deaths and rescans |
| Uploader.NothingLost | client_tools/data_uploader/uploader_client.py:55-107 | every tarball is always in the client's folder or complete and identical in the server's directory |
| Uploader.MadeStays | client_tools/data_uploader/uploader_client.py:102-107 | the content a tarball is measured against never changes |
| Uploader.DeletedOnlyWhenHeld | client_tools/data_uploader/uploader_client.py:89-91 | the client deletes only while the server holds equal content |
| Uploader.EndDeletesIff | client_tools/data_uploader/uploader_client.py:85-93 | a finished upload deletes the tarball exactly when the file arrived undamaged |
| Uploader.NeverStarves | server_tools/data_uploader/uploader_server.py:36-42 | what the server asks for is always on its way |
| Uploader.NoDeadlock | client_tools/data_uploader/uploader_client.py:55-100 | while both sides live some step of the session is possible |
| Uploader.ProgressEnds | client_tools/data_uploader/uploader_client.py:55-100 | every such step lowers a bound: an undisturbed upload ends |
| Uploader.DeathTouches | client_tools/data_uploader/uploader_client.py:93-100 | the death of one side leaves the other side, the stream and all files as they are |
| Uploader.Restarts | client_tools/data_uploader/uploader_client.py:102-107 | a tarball whose sessions are dead can be started again and then reaches the server |
| Uploader.CanStillArrive | client_tools/data_uploader/uploader_client.py:102-107 | from every reachable state every tarball in the folder can still be brought complete into the server's directory, and leaves the folder then |
| AckAccounting.AcceptIff | server_tools/analyzer/lib/tcpparser.py:183-191 | an acknowledgment updates the highest value and the count rightly exactly when it is less than 2^31 ahead, or behind by a distance that reads as 0 or as at least 2^31 |
| AckAccounting.RouteIff | server_tools/analyzer/lib/tcpparser.py:142-175 | which flow and side a packet belongs to, or that it is skipped, by its flags and endpoints |
| AckAccounting.SaidIs | server_tools/analyzer/lib/tcpparser.py:148-175 | with no flow the other way round a packet is the client's exactly when it goes from client to server, and the server's exactly when it goes back |
| AckAccounting.FoldCountsIff | server_tools/analyzer/lib/tcpparser.py:177-191 | over any reordering and any number of wraps, after every packet the last acknowledgment is the highest modulo 2^32 and the count is the highest minus its value when both sides had been heard, exactly when every packet meets that condition |
| AckAccounting.FoldCounts | server_tools/analyzer/lib/tcpparser.py:177-191 | so both counters are right for every flow whose packets meet it |
| AckAccounting.FirstSeqKept | server_tools/analyzer/lib/tcpparser.py:177-180 | the sequence number kept for a side is that of its first packet |
| AckAccounting.InReachCountable | server_tools/analyzer/lib/tcpparser.py:183-191 | acknowledgments within half the number space of the highest before them meet it |
| AckAccounting.FlowStats.Feed | server_tools/analyzer/lib/tcpparser.py:177-191 | one packet moves the two counters of its flow as specified |
| AckAccounting.Count | server_tools/analyzer/lib/tcpparser.py:135-199 | each flow's counters depend on its own packets only, and the total is the sum of the true bytes of the selected side when every flow can be counted |
| AckAccounting.FlowIsFold | server_tools/analyzer/lib/tcpparser.py:148-191 | a flow's counters are those of the segments that flags and endpoints give it, by their true acknowledgments |
| AckAccounting.TotalIsTrue | server_tools/analyzer/lib/tcpparser.py:192-199 | the total is the sum of the true acknowledged bytes, when every flow's packets meet it |
| NeighborLearning.VisitAllNeighbours | client_tools/carfi/roamingd/hostap/wpa_supplicant/bgscan_learn.c:513-541 | after a scan the neighbours of an address are the old ones and, if it matched, the first fifty matching ones but itself |
| NeighborLearning.VisitAllFreq | client_tools/carfi/roamingd/hostap/wpa_supplicant/bgscan_learn.c:520-535 | after a scan an address has the frequency it was last heard on |
| NeighborLearning.SymmetricIff | client_tools/carfi/roamingd/hostap/wpa_supplicant/bgscan_learn.c:499-541 | a scan keeps the relation symmetric exactly when every matching address past the first fifty was a neighbour of each of those already |
| NeighborLearning.FewMatchesKnown | client_tools/carfi/roamingd/hostap/wpa_supplicant/bgscan_learn.c:489-508 | at most fifty matching results meet that condition |
| NeighborLearning.FiftyOneAsymmetric | client_tools/carfi/roamingd/hostap/wpa_supplicant/bgscan_learn.c:499-541 | one scan with fifty-one matches makes the relation asymmetric |
| NeighborLearning.VisitAllTidy | client_tools/carfi/roamingd/hostap/wpa_supplicant/bgscan_learn.c:68-85 | one entry per address, no neighbour twice, none its own neighbour |
| NeighborLearning.NotifyEntries | client_tools/carfi/roamingd/hostap/wpa_supplicant/bgscan_learn.c:484-551 | after a scan an address has an entry exactly when it had one or some result has it and the own SSID |
| NeighborLearning.NotifyNeighbours | client_tools/carfi/roamingd/hostap/wpa_supplicant/bgscan_learn.c:484-551 | with at most fifty own results two addresses are neighbours afterwards exactly when they were or both have such a result |
| NeighborLearning.NotifyFreq | client_tools/carfi/roamingd/hostap/wpa_supplicant/bgscan_learn.c:484-551 | an address heard has the frequency of its last result with the own SSID, any other keeps its own |
| NeighborFile.BssTextLoads | client_tools/carfi/roamingd/hostap/wpa_supplicant/bgscan_learn.c:125-139 | the entry lines load into the reversed list |
| NeighborFile.NeighborsLoad | client_tools/carfi/roamingd/hostap/wpa_supplicant/bgscan_learn.c:141-153 | the neighbour lines of an entry add its neighbours to it |
| NeighborFile.LoadSave | client_tools/carfi/roamingd/hostap/wpa_supplicant/bgscan_learn.c:101-192 | loading what was saved gives the same entries, neighbour order included, in reverse order |
| NeighborFile.SameKnowledge | client_tools/carfi/roamingd/hostap/wpa_supplicant/bgscan_learn.c:101-192 | the frequency map and the neighbour lists survive a save and a load |
| NeighborFile.LoadsIff | client_tools/carfi/roamingd/hostap/wpa_supplicant/bgscan_learn.c:116-122 | a file loads exactly when it begins with the header |
| NeighborFile.StrayLine | client_tools/carfi/roamingd/hostap/wpa_supplicant/bgscan_learn.c:124-154 | a line that names no entry with an address and no neighbour of a known one is passed over |
| NeighborFile.LongLine | client_tools/carfi/roamingd/hostap/wpa_supplicant/bgscan_learn.c:104-124 | a line too long for the buffer is read in parts of 127 characters |
| NeighborFile.SavedText | client_tools/carfi/roamingd/hostap/wpa_supplicant/bgscan_learn.c:161-192 | an entry and its neighbour as they stand in the file |
| NeighborFile.RunKeeps | client_tools/carfi/roamingd/hostap/wpa_supplicant/bgscan_learn.c:447-551 | over any run of scans and restarts: one entry per address, no duplicates, none its own neighbour |
| NeighborFile.RunSymmetricIff | client_tools/carfi/roamingd/hostap/wpa_supplicant/bgscan_learn.c:447-551 | the relation stays symmetric throughout a run exactly when no scan of it loses a new neighbour to the cut at fifty |
| NeighborFile.RunSymmetric | client_tools/carfi/roamingd/hostap/wpa_supplicant/bgscan_learn.c:447-551 | in particular when no scan has more than fifty matches |
| NeighborFile.RunEntries | client_tools/carfi/roamingd/hostap/wpa_supplicant/bgscan_learn.c:101-551 | after a run of scans and restarts an address has an entry exactly when some scan heard it |
| NeighborFile.RunNeighbours | client_tools/carfi/roamingd/hostap/wpa_supplicant/bgscan_learn.c:101-551 | with at most fifty own results a scan, two addresses are neighbours exactly when one scan heard both |
| NeighborFile.RunFreq | client_tools/carfi/roamingd/hostap/wpa_supplicant/bgscan_learn.c:101-551 | an address has the frequency of its last own result in the last scan that heard it |
| NeighborFile.Learner.GetBss | client_tools/carfi/roamingd/hostap/wpa_supplicant/bgscan_learn.c:88-98 | finds the first entry of the address |
| NeighborFile.Learner.AddNeighborAt | client_tools/carfi/roamingd/hostap/wpa_supplicant/bgscan_learn.c:68-85 | adds the address unless it is the entry itself or known |
| NeighborFile.Learner.CollectAddrs | client_tools/carfi/roamingd/hostap/wpa_supplicant/bgscan_learn.c:499-509 | the addresses of the first fifty matching results: with at most fifty own results, exactly those heard |
| NeighborFile.Learner.NotifyScan | client_tools/carfi/roamingd/hostap/wpa_supplicant/bgscan_learn.c:484-551 | one scan has the specified effect: the entries are those there were and those heard |
| NeighborFile.Learner.SaveFile | client_tools/carfi/roamingd/hostap/wpa_supplicant/bgscan_learn.c:161-192 | writes the specified text |
| NeighborFile.Learner.LoadFile | client_tools/carfi/roamingd/hostap/wpa_supplicant/bgscan_learn.c:101-158 | reads the specified list, or fails without the header |
| Text.ParsePrintAddr | client_tools/carfi/roamingd/hostap/src/utils/common.c:40-68 | a printed hardware address is read back, whatever follows it |
| Text.AtoiPrint | client_tools/carfi/roamingd/hostap/wpa_supplicant/bgscan_learn.c:134-134 | a printed number that no digit follows is read back by `atoi` |
| Text.SixOctets | client_tools/carfi/roamingd/hostap/src/utils/common.c:40-68 | six octets, high digit first, with colons between them |
| PriorityGroups.GroupsWellGrouped | client_tools/carfi/roamingd/hostap/wpa_supplicant/config.c:2002-2042 | the groups have strictly decreasing priorities, each of one priority |
| PriorityGroups.GroupsKeepOrder | client_tools/carfi/roamingd/hostap/wpa_supplicant/config.c:2054-2072 | within a priority the networks keep their configured order |
| PriorityGroups.StableSortUnique | client_tools/carfi/roamingd/hostap/wpa_supplicant/config.c:2054-2072 | a list with decreasing priorities and a given order within each is unique |
| PriorityGroups.GroupsAreStableSort | client_tools/carfi/roamingd/hostap/wpa_supplicant/config.c:2054-2072 | the concatenated groups are the stable sort by decreasing priority, and nothing else is |
| PriorityGroups.GroupsPermute | client_tools/carfi/roamingd/hostap/wpa_supplicant/config.c:2054-2072 | every network is in exactly one place |
| PriorityGroups.RunIncreasing | client_tools/carfi/roamingd/hostap/wpa_supplicant/config.c:2329-2389 | after any additions, removals and priority changes the ids are distinct and increase along the list |
| PriorityGroups.RunOps | client_tools/carfi/roamingd/hostap/wpa_supplicant/config.c:2329-2384 | after any run, adding appends one network of priority 0 under the next id, removing leaves exactly the networks with another id in order, and setting a priority changes that of the one network only |
| PriorityGroups.Config.FindChain | client_tools/carfi/roamingd/hostap/wpa_supplicant/config.c:2012-2014 | finds the chain of the priority, if there is one |
| PriorityGroups.Config.EndOfChain | client_tools/carfi/roamingd/hostap/wpa_supplicant/config.c:2015-2016 | follows the chain to its last network |
| PriorityGroups.Config.AddPrioNetwork | client_tools/carfi/roamingd/hostap/wpa_supplicant/config.c:2002-2042 | heads and chains spell the groups of one more network |
| PriorityGroups.Config.UpdatePrioList | client_tools/carfi/roamingd/hostap/wpa_supplicant/config.c:2054-2072 | heads and chains spell the groups of the network list |
| PriorityGroups.Config.AddNetwork | client_tools/carfi/roamingd/hostap/wpa_supplicant/config.c:2329-2357 | appends one network of priority 0 under the first id above all others |
| PriorityGroups.Config.RemoveNetwork | client_tools/carfi/roamingd/hostap/wpa_supplicant/config.c:2366-2389 | leaves exactly the networks with another id, in order; -1 when there is none with the id |
| PriorityGroups.Config.ChangePriority | client_tools/carfi/roamingd/hostap/wpa_supplicant/ctrl_iface.c:2940-2970 | changes the priority of the one network and nothing else; -1 when there is none with the id |
| ScanBudget.RunInBudget | client_tools/carfi/roamingd/hostap/wpa_supplicant/bgscan_simple.c:52-79 | in every run with different intervals the counter is the short scans not given back, and exceeds the maximum by one and the drops at most |
| ScanBudget.EqualIntervalsNeverStop | client_tools/carfi/roamingd/hostap/wpa_supplicant/bgscan_simple.c:57-68 | with equal intervals any number of scans counts as short |
| ScanBudget.RationedIff | client_tools/carfi/roamingd/hostap/wpa_supplicant/bgscan_simple.c:52-256 | short scans number at most the maximum, one, the long scans and the drops, in every run, exactly when the intervals differ |
| ScanBudget.AlwaysArmed | client_tools/carfi/roamingd/hostap/wpa_supplicant/bgscan_simple.c:33-273 | in every run a timeout is pending or a scan is under way |
| ScanBudget.TimeoutScans | client_tools/carfi/roamingd/hostap/wpa_supplicant/bgscan_simple.c:56-79 | a triggered scan leaves no timeout pending, uses budget at the short interval and gives it back at the long one |
| ScanBudget.FailedTriggerRetries | client_tools/carfi/roamingd/hostap/wpa_supplicant/bgscan_simple.c:52-55 | a failed trigger is tried again after the current interval and costs nothing |
| ScanBudget.DoneRearms | client_tools/carfi/roamingd/hostap/wpa_supplicant/bgscan_simple.c:176-197 | when a scan is done the next is due after the current interval |
| ScanBudget.SignalArms | client_tools/carfi/roamingd/hostap/wpa_supplicant/bgscan_simple.c:207-273 | a drop turns to the short interval and scans at once with budget left, a rise turns to the long interval, and no signal change touches the budget |
| ScanBudget.StartsArmed | client_tools/carfi/roamingd/hostap/wpa_supplicant/bgscan_simple.c:111-165 | the intervals, the initial one and its timeout |
| ScanBudget.Bgscan.constructor | client_tools/carfi/roamingd/hostap/wpa_supplicant/bgscan_simple.c:111-165 | the initial interval and budget |
| ScanBudget.Bgscan.HandleTimeout | client_tools/carfi/roamingd/hostap/wpa_supplicant/bgscan_simple.c:33-80 | a due scan has the specified effect |
| ScanBudget.Bgscan.NotifySignalChange | client_tools/carfi/roamingd/hostap/wpa_supplicant/bgscan_simple.c:207-273 | a signal change has the specified effect |
| ScanBudget.Drive | client_tools/carfi/roamingd/hostap/wpa_supplicant/bgscan_simple.c:33-273 | the module over any sequence of events is in the state of the run and has done its scans; with different intervals the short ones are rationed |
| Rotation.SeekIsHit | client_tools/carfi/roamingd/hostap/hostapd/hlr_auc_gw.c:388-410 | the search finds the next wanted item in cyclic order, and finds one exactly when there is one |
| Rotation.TurnIsHit | client_tools/carfi/roamingd/hostap/hostapd/hlr_auc_gw.c:388-410 | call number i finds the item that is i places on in cyclic order |
| Rotation.TurnsDiffer | client_tools/carfi/roamingd/hostap/hostapd/hlr_auc_gw.c:388-410 | a round of calls finds no item twice |
| Rotation.TurnsCover | client_tools/carfi/roamingd/hostap/hostapd/hlr_auc_gw.c:388-410 | a round of calls finds every wanted item |
| Rotation.TurnsRepeat | client_tools/carfi/roamingd/hostap/hostapd/hlr_auc_gw.c:388-410 | the next round repeats the order |
| FreqProbe.InArrayLoop | client_tools/carfi/roamingd/hostap/wpa_supplicant/bgscan_learn.c:195-208 | membership among the entries before the terminating zero |
| FreqProbe.InArrayIff | client_tools/carfi/roamingd/hostap/wpa_supplicant/bgscan_learn.c:195-208 | found exactly when no zero comes at or before it |
| FreqProbe.DedupIsSet | client_tools/carfi/roamingd/hostap/wpa_supplicant/bgscan_learn.c:211-232 | without zeros, every value once |
| FreqProbe.GetSuppFreqs | client_tools/carfi/roamingd/hostap/wpa_supplicant/bgscan_learn.c:351-380 | the enabled frequencies of all modes, each once and no others |
| FreqProbe.GetFreqs | client_tools/carfi/roamingd/hostap/wpa_supplicant/bgscan_learn.c:211-232 | the learned frequencies, each once |
| FreqProbe.Probe.GetProbeFreq | client_tools/carfi/roamingd/hostap/wpa_supplicant/bgscan_learn.c:235-267 | the loop ends, and adds one frequency exactly when a supported one is missing: the next missing one |
| FreqProbe.Probe.ProbeTimes | client_tools/carfi/roamingd/hostap/wpa_supplicant/bgscan_learn.c:235-267 | calls in a row probe the missing frequencies in turn |
| FreqProbe.RoundProbesAll | client_tools/carfi/roamingd/hostap/wpa_supplicant/bgscan_learn.c:235-267 | as many calls as frequencies are missing probe each once |
| Hlr.Database.GetTriplet | client_tools/carfi/roamingd/hostap/hostapd/hlr_auc_gw.c:388-410 | the next match from the cursor going round once, from any cursor, the null one included |
| Hlr.Database.GetTimes | client_tools/carfi/roamingd/hostap/hostapd/hlr_auc_gw.c:388-410 | calls in a row hand out the subscriber's triplets in turn |
| Hlr.RoundGivesAll | client_tools/carfi/roamingd/hostap/hostapd/hlr_auc_gw.c:388-410 | as many calls as the subscriber has triplets give each of them once |
| Hlr.RaisedParts | client_tools/carfi/roamingd/hostap/hostapd/hlr_auc_gw.c:766-785 | a step raises both parts of the number by one, each modulo its own size |
| Hlr.ValueIs | client_tools/carfi/roamingd/hostap/hostapd/hlr_auc_gw.c:766-785 | the first byte counts most |
| Hlr.IncSqn | client_tools/carfi/roamingd/hostap/hostapd/hlr_auc_gw.c:766-785 | for index lengths up to 30 the six bytes hold the raised number cut to 48 bits; above, the mask is undefined in C |
| Hlr.IncTimesParts | client_tools/carfi/roamingd/hostap/hostapd/hlr_auc_gw.c:766-785 | after any number of steps both parts have advanced by it, modulo their sizes |
| Hlr.SeqFresh | client_tools/carfi/roamingd/hostap/hostapd/hlr_auc_gw.c:766-785 | no sequence part is used twice within its whole range |
| Collision.ScanForward | server_tools/analyzer/multi_carfi_LB.py:70-73 | finds a hit from the start index on, or there is none |
| Collision.ScanBack | server_tools/analyzer/multi_carfi_LB.py:78-81 | finds a hit up to the start index, or there is none |
| Collision.FindCollision | server_tools/analyzer/multi_carfi_LB.py:63-100 | true exactly when some reached candidate is a hit; the cursor is at the nearest hit, or past the window on the side looked at last, within the list |
| Collision.InsideIsReached | server_tools/analyzer/multi_carfi_LB.py:66-94 | a candidate strictly inside the window is always reached |
| Collision.MissedIff | server_tools/analyzer/multi_carfi_LB.py:66-81 | a hit is missed exactly when it is level with the cursor on an end of the window, on the far side |
| Collision.SearchIff | server_tools/analyzer/multi_carfi_LB.py:63-100 | the search is the full scan exactly when the hits, if there are any, are not all level with the cursor like that |
| Collision.StrictReachesAll | server_tools/analyzer/multi_carfi_LB.py:63-100 | with strictly increasing times the search is the full scan, whatever the cursor |
| Collision.MissesTie | server_tools/analyzer/multi_carfi_LB.py:66-73 | with equal times it may miss a collision |
| Collision.CompareCars | server_tools/analyzer/multi_carfi_LB.py:104-126 | an empty list ends the comparison at the first target; otherwise every count is what searches from the cursors left by the targets before find |
| Collision.FoundIff | server_tools/analyzer/multi_carfi_LB.py:119-126 | such a count is never above the number of lists with a collision, and equals it exactly when no list hides its collisions from its cursor |
| Collision.CollisionsAre | server_tools/analyzer/multi_carfi_LB.py:119-126 | the number it is compared with is that of the lists with a collision |
| Collision.StrictFindsAll | server_tools/analyzer/multi_carfi_LB.py:119-126 | for lists without equal times the counts do not depend on the cursors |
| Collision.Group | server_tools/analyzer/multi_carfi_LB.py:42-51 | the distinct values in increasing order with their running counts |
| Collision.GetCdf | server_tools/analyzer/multi_carfi_LB.py:38-60 | for each distinct value the fraction of the list that is at most it |
| IntList.Grow | client_tools/carfi/roamingd/hostap/wpa_supplicant/config.c:1119-1131 | doubling keeps the numbers and zeroes every new slot |
| IntList.ParseIntArray | client_tools/carfi/roamingd/hostap/wpa_supplicant/config.c:1103-1141 | the numbers of the text, with zeros in every slot after them through all growth |
| IntList.ParseStops | client_tools/carfi/roamingd/hostap/wpa_supplicant/config.c:1103-1141 | spaces before a number do not matter, and nothing after a zero is read |
| IntList.WriteFreqs | client_tools/carfi/roamingd/hostap/wpa_supplicant/config.c:1185-1215 | the numbers with single spaces, cut at ten characters per number |
| IntList.CutIff | client_tools/carfi/roamingd/hostap/wpa_supplicant/config.c:1199-1210 | the text is cut exactly when the digits alone are more than nine per number and one |
| IntList.TenDigitsCut | client_tools/carfi/roamingd/hostap/wpa_supplicant/config.c:1199-1210 | two numbers of ten digits are cut |
| IntList.NineDigitsFit | client_tools/carfi/roamingd/hostap/wpa_supplicant/config.c:1199-1210 | numbers of at most nine digits are never cut |
| IntList.RoundTrip | client_tools/carfi/roamingd/hostap/wpa_supplicant/config.c:1103-1215 | lists of positive numbers are read back as printed |
| IntList.WriteThenParse | client_tools/carfi/roamingd/hostap/wpa_supplicant/config.c:1103-1215 | printing then parsing gives the same zero-terminated list |

## Left out

- Regular expressions, packet and GPX decoding, geodesic distance, database and plotting code: rows, packets and an abstract distance are the starting point.
- Averages and deviations of the link samples: the join keeps the list of samples they are computed from.
- Signal level, association type and the exception of a malformed level line in `_InfoBlk._parse`: they do not enter the timestamps.
- Start and end times of a packet trace, and the tester's own totals: easy members.
- BSS fields that are only copied (rates, capabilities, noise, information elements after parsing), hessid, change flags and notifications.
- P2P special cases in the BSS table, and reuse of a freed address.
- Allocation failure and wrap-around of ids and counters.
- Scan and connect timers, signal polling and driver calls: only the decisions that depend on them.
- UTF-8 decoding of file names, failing `mv` and `rm`, and files that change while they are sent.
- Bytes past the end of a truncated last line when a saved file is loaded: `atoi` of what the buffer held before is read as 0.
- Overflow of `atoi` and of 32-bit integers in number lists.
- Bit operations of the sequence number are arithmetic.
- The remaining string options of the configuration, access point mode, blacklist, autoscan and cryptography.
- BssStore.Store.UpdateEntry: whether memory moves is a parameter, not computed from the lengths of the elements.
- Hlr.IncSqn: promises nothing for the index lengths 31 and 32 that the option parser accepts, because the shift of a C `int` is undefined there.
- Collision.GetCdf: takes the sorted list as a parameter, because sorting is the library's.
