# Verified models of Redis internals, a channel and sorting routines

This project models, in Dafny, the parts of the repository whose correctness is hardest to see:

* **Redis Cluster** (`Cluster*.dfy`): epochs, voting, replica promotion and slot configuration as a
  state machine over all servers and the packets in flight, and the in-place cluster state with its
  cached bitmaps and counts. It follows the Redis Cluster Specification, sections "Replica election
  and promotion", "Masters reply to replica vote request" and "Hash slots configuration propagation".
* **Append-only file** (`Aof*.dfy`): the wire form of commands (RESP arrays and bulk strings), the
  loader under every truncation, the translation of expires, flushing under every outcome of `write`,
  and the background rewrite with its pipe and stop/acknowledge exchange.
* **ACL rules** (`Acl*.dfy`): the rule interpreter and the describer that must undo each other, the
  file that users are saved to and loaded from, and the checks that give rules their meaning.
* **Blocking list operations** (`Blocked*.dfy`, `Adlist.dfy`): waiting lists, the ready-key drain,
  the commands around it, and the doubly linked list underneath.
* **Bit operations** (`Bit*.dfy`, `Popcount.dfy`): BITFIELD arithmetic and the word-at-a-time forms
  of BITCOUNT, BITPOS and BITOP.
* **Channel** (`Chan.dfy`), **quick sort** (`QuickSort.dfy`) and **radix sorts** (`RadixSort.dfy`).

Code that changes state is a class or a method proved equal to a function on values; the properties
are then proved about the functions, over all inputs, all runs or all reachable states. Clocks,
delays, results of system calls, the password hash, pattern matching and what a command does to the
data are parameters. Slot count, node names and epochs are symbolic.

Where a property turned out not to hold of the code, the code is kept, a concrete failing case is
given, and it is proved when the property holds; the condition is exact where it says "exactly":

* Votes acknowledged after an election was rescheduled, but before the new epoch is requested, are
  counted for the new attempt; two replicas can then win the same epoch
  (`ClusterLateAck.TwoWinners`). Without such an acknowledgement an epoch has one winner
  (`ClusterElection.ElectionSafety`), and in every run with two winners of one epoch a winning counter
  held a vote of an earlier epoch (`ClusterElection.TwoWinnersNeedLateAck`).
* A replica that was given slots by CLUSTER ADDSLOTS can be aborted by a heartbeat
  (`ClusterAborts.ReachesAbort`), exactly when its master loses all its slots to the claim while it
  keeps one (`ClusterAborts.AbortIsExact`); without such slots no run aborts
  (`ClusterAborts.NeverAborts`).
* A cut file is truncated to its last complete command or transaction exactly when the cut does not
  tear a command inside an open transaction (`AofLoad.LoadAnyCut`). Otherwise the queued commands stay
  (`AofLoad.TornTransactionStays`), and what is appended later is not executed by the next load
  (`AofLoad.AppendedAfterTornTransactionIsLost`).
* A command that sets a value and its expire is written to the file as two commands, so a crash can
  leave a data set that the server never had (`AofRuns.SetExHalfWritten`); without such commands
  outside transactions every file loads to a data set the server had (`AofRuns.CrashConsistency`,
  `AofRuns.HadIsData`).
* Storing a list over an existing key does not signal it; a client waiting for that key then stays
  blocked although the list has items (`BlockedRuns.SilentStoreStrands`). A store does so exactly when
  a list client waits for the key it overwrites (`BlockedRuns.StoreIsExact`).
* A described user is rebuilt as it was, except that it gains the all-commands flag when every bit is
  set without it (`AclRoundTrip.RoundTripIsExact`, `AclText.FlagIsGained`). Saved to a file it is read
  back exactly when no allowed subcommand contains a space or a newline or ends in a tab or a
  carriage return (`AclText.TextRoundTrip`, `AclText.BlankIsLost`).
* BITFIELD SET with saturation stores the wrong limit exactly for negative values of unsigned fields
  and for signed values so small that `max - value` leaves 64 bits (`BitfieldOps.MisSaturated`,
  `BitfieldOps.CheckedExact`); that subtraction is modelled with two's complement wrap-around.

## Model

| member | source | states |
|---|---|---|
| ClusterElection.ElectionSafety | redis/src/cluster.c:2810-2911 | In every run from an initial state, with a fixed electorate per epoch and no acknowledgement counted between the reset of a counter and the next request, two wins of the same epoch are by the same replica. |
| ClusterElection.TwoWinnersNeedLateAck | redis/src/cluster.c:2106-2118 | In every run, late acknowledgements included: if two replicas win one epoch, one of the two winning counters held a vote cast in an earlier epoch. |
| ClusterLateAck.TwoWinners | redis/src/cluster.c:3122-3127 | A concrete run of the handlers, electorate respected throughout, in which replicas 4 and 5 both win epoch 2, replica 4 with two votes of epoch 1. |
| ClusterElection.StepKeepsInv | redis/src/cluster.c:1686-2160 | Every event (delivery, loss, sending, timer tick, administrator command) keeps: one vote per voter and epoch, every acknowledgement in flight is a vote cast, every counter is the number of votes counted since its reset, none of a later epoch, every win has a majority; counters keep holding votes of their own attempt only if and only if the event counts no late acknowledgement. |
| ClusterElection.OneWinner | redis/src/cluster.c:3200-3216 | Two winners of one epoch whose counted votes are all of that epoch are the same replica: the majorities share a voter, who voted once. |
| ClusterElection.GrantEffect | redis/src/cluster.c:2810-2911 | A granted vote is for an epoch greater than any voted before, records that epoch and is sent in that epoch. |
| ClusterElection.CountEffect | redis/src/cluster.c:2106-2118 | An acknowledgement that is counted is not older than the requested epoch and adds exactly one to the counter. |
| ClusterElection.FailoverOutcome | redis/src/cluster.c:3050-3220 | Scheduling resets the counter and the sent flag but not the epoch; a request takes a fresh epoch; a win needs a strict majority of the recorded size. |
| ClusterRuns.EpochDominance | redis/src/cluster.c:1763-1774 | In every reachable state the current epoch of a server bounds every configuration epoch it records, its last vote and its election epoch, and every packet in flight carries a configuration epoch no greater than its current epoch. |
| ClusterRuns.EpochsNeverDecrease | redis/src/cluster.c:1055-1072 | Along every run the current, last-vote and election epochs of a server never go back, nor does the configuration epoch it records for any node it knows all along, itself included. |
| ClusterRuns.HandleKeeps | redis/src/cluster.c:1686-2160 | Whatever packet arrives, the server stays well linked, keeps its election fields unless it votes or counts a vote, keeps epoch dominance and gains no slot as a replica. |
| ClusterRuns.AdminKeeps | redis/src/cluster.c:4361-4820 | ADDSLOTS, DELSLOTS, SETSLOT, FORGET, REPLICATE, FAILOVER TAKEOVER, SET-CONFIG-EPOCH and the local bookkeeping keep linking, the election fields and epoch dominance; only ADDSLOTS on a replica makes a replica own slots. |
| ClusterAborts.AbortIsExact | redis/src/cluster.c:1646-1663 | A claim of slots ends the program if and only if this server is a replica whose master owns slots and loses all of them to the claim while the replica keeps a slot of its own. |
| ClusterAborts.NeverAborts | redis/src/cluster.c:4017-4021 | In every run in which no slot is added to a replica, no claim whatever would fail an assertion of the role change at any server at any moment. |
| ClusterAborts.MasterIsAlwaysKnown | redis/src/cluster.c:4643-4656 | In every run the master of a server is at every moment a node it knows, so no missing master is dereferenced. |
| ClusterAborts.ReachesAbort | redis/src/cluster.c:4361-4406 | From two fresh servers administrator commands alone reach a state in which a heartbeat on the wire would abort its receiver. |
| ClusterRuns.StepKeepsNet | redis/src/cluster.c:2348-2418 | Every packet put on the wire by any event has a configuration epoch at most its current epoch. |
| ClusterEpochs.SeeHeaderKeeps | redis/src/cluster.c:1763-1774 | Seeing a header raises the epochs to at least those of the header and keeps dominance. |
| ClusterEpochs.UpdateSlotsKeeps | redis/src/cluster.c:1581-1676 | Rebinding slots, including following a new master, keeps linking, election fields and dominance, whenever it does not abort. |
| ClusterEpochs.ClaimIsSafe | redis/src/cluster.c:1646-1663 | A server that owns slots only as a master survives every claim. |
| ClusterEpochs.CollideKeeps | redis/src/cluster.c:1120-1135 | Resolving a configuration epoch collision keeps linking, election fields and dominance. |
| ClusterEpochs.PingKeeps | redis/src/cluster.c:1926-2060 | Handling a heartbeat (epochs, role change, slots, collision) keeps linking, election fields and dominance. |
| ClusterEpochs.UpdateKeeps | redis/src/cluster.c:2131-2152 | Handling an UPDATE message keeps linking and election fields, and dominance when its epoch was seen. |
| ClusterEpochs.VoteKeeps | redis/src/cluster.c:2810-2911 | Casting a vote changes no slot, moves the last vote strictly up to the current epoch and keeps dominance. |
| ClusterEpochs.FailoverKeeps | redis/src/cluster.c:3050-3220 | The replica's election handler never changes its last vote and keeps linking and dominance. |
| ClusterEpochs.BumpKeeps | redis/src/cluster.c:1055-1072 | Taking an epoch without consensus keeps linking, election fields and dominance. |
| ClusterEpochs.SetConfigEpochKeeps | redis/src/cluster.c:4788-4820 | Setting the configuration epoch by hand keeps linking, election fields and dominance. |
| ClusterEpochs.ForgetKeeps | redis/src/cluster.c:948-975 | Forgetting a node that is neither this server nor its master leaves no pointer to it behind and keeps election fields and dominance. |
| ClusterEpochs.HeaderBuiltIsOk | redis/src/cluster.c:2348-2418 | A header built by a dominated server, also on behalf of its master, carries a configuration epoch at most its current epoch. |
| ClusterConvergence.OrderDoesNotMatter | redis/src/cluster.c:2131-2152 | The same set of announcements by distinct masters with distinct epochs gives the same slot owner table in every delivery order. |
| ClusterConvergence.SlotGoesToWinner | redis/src/cluster.c:1604-1641 | After any order of delivery each slot belongs to its greatest-epoch claimant, unless a silent owner has an epoch at least as great. |
| ClusterConvergence.WinnerIsUnique | redis/src/cluster.c:1604-1641 | The rule that names the owner of a slot, stated without any order of messages, names one owner. |
| ClusterConvergence.HearEffect | redis/src/cluster.c:1604-1641 | One announcement changes exactly the claimed slots that are free or whose owner has an older epoch. |
| ClusterConvergence.PingSpreadsLikeUpdate | redis/src/cluster.c:1980-2020 | A master's own heartbeat has the same effect on the owner table as an UPDATE about it. |
| ClusterTakeover.ReplaceMasterTakesOver | redis/src/cluster.c:3012-3042 | After a replica took over, a slot is its own if and only if it was its master's or its own before; every other slot and every other node is as before and the old master owns nothing. |
| ClusterTakeover.WinnerTakesOver | redis/src/cluster.c:3200-3216 | The same whenever the election handler reports a win, and the winner's configuration epoch is at least the epoch of the election. |
| ClusterTakeover.OnlyWinnersTakeOver | redis/src/cluster.c:3050-3220 | Without a win the handler moves no slot, role or configuration epoch. |
| ClusterTakeover.TakeoverTakesOver | redis/src/cluster.c:4769-4776 | The same for CLUSTER FAILOVER TAKEOVER, under a configuration epoch that is the greatest this server knows. |
| ClusterTakeover.BumpLeads | redis/src/cluster.c:1055-1072 | Taking an epoch without consensus makes the own configuration epoch the greatest known and not 0; when it changes it is greater than that of every other node. |
| ClusterTakeover.CollisionMovesSmaller | redis/src/cluster.c:1120-1135 | Of two masters with the same configuration epoch the one with the smaller name gets an epoch greater than any other it knows; the other changes nothing. |
| ClusterTakeover.CollisionEnds | redis/src/cluster.c:1120-1135 | When both handle the collision, their configuration epochs differ. |
| ClusterTakeover.PingResolvesCollision | redis/src/cluster.c:2046-2060 | A heartbeat with this master's own configuration epoch and a greater name leaves it with an epoch greater than that of every node it knows. |
| ClusterTakeover.FollowsExactly | redis/src/cluster.c:1646-1663 | Handling a claim makes this server a replica of the claimant if and only if its master owned slots and loses all of them to the claim; otherwise its role stays. |
| ClusterTakeover.PingSpreads | redis/src/cluster.c:1980-2006 | A master's heartbeat moves exactly the claimed slots that are free or have an owner with an older epoch and are not being imported, whatever was known of the sender before. |
| ClusterTakeover.FailoverIsHeard | redis/src/cluster.c:3029-3035 | A server that hears the winner records the old master's slots as the winner's, unless it imports the slot or knows an owner whose epoch is not older. |
| ClusterTakeover.OldMasterFollows | redis/src/cluster.c:1646-1663 | The old master and its other replicas become replicas of the winner when they hear it, if the winner took every slot of the old master they know of under a newer epoch. |
| ClusterHeaders.SeeHeaderIsMax | redis/src/cluster.c:1763-1774 | A header raises the current epoch and the sender's configuration epoch to the greater of the two and touches nothing else. |
| ClusterHeaders.RoleIsTaken | redis/src/cluster.c:1944-1978 | The announced role is recorded; a master that turned replica loses exactly its slots; no other node changes. |
| ClusterHeaders.ReplicaPing | redis/src/cluster.c:1944-2060 | A whole heartbeat of a replica frees the slots it had as a master, moves no other slot and takes both epochs as maxima. |
| ClusterHeaders.HeaderSays | redis/src/cluster.c:2348-2418 | A master announces its own slots and configuration epoch, a replica exactly those of its master. |
| ClusterHeaders.AgreedClaimIsCurrent | redis/src/cluster.c:2882-2903 | A replica's claim is never stale at a server with the same owner table and no newer configuration epoch for its master. |
| ClusterHeaders.ForgetIsExact | redis/src/cluster.c:948-975 | After forgetting a node no slot, import or master pointer names it, and everything that did not name it is as it was. |
| ClusterCommands.AdminSlotsAreExact | redis/src/cluster.c:4361-4505 | For every administrator command and every slot: its owner and its import afterwards. |
| ClusterCommands.ReplicateFollows | redis/src/cluster.c:4661-4695 | REPLICATE makes this server a replica of the node named and changes no other node. |
| ClusterCommands.ImportEndsInLead | redis/src/cluster.c:4479-4500 | SETSLOT NODE that ends an import gives this server the slot under the greatest configuration epoch it knows. |
| ClusterCommands.SetEpochIsExact | redis/src/cluster.c:4788-4816 | SET-CONFIG-EPOCH takes effect if and only if the server knows no other node and has epoch 0. |
| ClusterVoting.GrantIsExact | redis/src/cluster.c:2810-2911 | A vote is granted if and only if the voter is a master that serves slots, the request is not of an older epoch and this epoch has no vote yet, the candidate is a replica whose master the voter records as failed or the request is forced, the last vote about that master is at least twice the node timeout ago, and no claimed slot has an owner with a greater configuration epoch. |
| ClusterVoting.VotesAreLawful | redis/src/cluster.c:2810-2911 | Along every run each vote that is recorded was cast at a step of that run whose voter met all these conditions. |
| ClusterVoting.LawfulIsGranted | redis/src/cluster.c:2905-2911 | Conversely a request that meets them is granted: the vote is recorded and an acknowledgement in the request's epoch is on its way. |
| ClusterVoting.VotesAreSpaced | redis/src/cluster.c:2868-2880 | Two votes of one server about one master, which it knows all the time in between, are at least twice the node timeout apart, whatever else happens. |
| ClusterVoting.TimesNeverGoBack | redis/src/cluster.c:2904-2906 | Along every run the time of the last vote about a node that stays known never goes back. |
| ClusterVoting.ForgettingResets | redis/src/cluster.c:948-975 | A server that forgot a master and learnt it again knows of no vote about it. |
| ClusterVoting.CountIsExact | redis/src/cluster.c:2106-2118 | An acknowledgement is counted if and only if it is of a master that serves slots and not older than the election epoch. |
| ClusterVoting.CountsAreLawful | redis/src/cluster.c:2106-2118 | Along every run each vote counted was counted by its candidate as that of a master that serves slots. |
| ClusterVoting.OutcomeIsExact | redis/src/cluster.c:3050-3220 | When the replica's handler schedules, requests and wins, as conditions on the state before the call. |
| ClusterSlots.ClusterState.AddSlot | redis/src/cluster.c:3790-3798 | Gives a free slot to a node and refuses a taken one; bitmaps, counts and table still agree. |
| ClusterSlots.ClusterState.DelSlot | redis/src/cluster.c:3800-3809 | Frees a slot; the abort on an unset bit is unreachable; bitmaps, counts and table still agree. |
| ClusterSlots.ClusterState.DelNodeSlots | redis/src/cluster.c:3811-3821 | Frees exactly the node's slots, returns its cached count and leaves that count 0. |
| ClusterSlots.ClusterState.TestSlotBit | redis/src/cluster.c:3782-3784 | The cached bit is set exactly when the table names the node. |
| ClusterSlots.ClusterState.UpdateSlotsConfigWith | redis/src/cluster.c:1581-1676 | The loop in place equals the rebinding function, including the test of the cached count that makes a replica follow the new master; required is that the claim does not abort, and then both assertions of the role change hold. |
| ClusterSlots.ClusterState.RebindSlots | redis/src/cluster.c:1604-1641 | Moves exactly the claimed slots with an older or no owner and reports exactly whether our master lost one. |
| ClusterSlots.ClusterState.FailoverReplaceYourMaster | redis/src/cluster.c:3012-3042 | In place: the server is a master, each slot of the old master is now its own and every other slot is as before; bitmaps and counts agree. |
| ClusterSlots.ClusterState.ClaimSlotsOf | redis/src/cluster.c:3020-3027 | Moves exactly the slots of one node to this server, keeping bitmaps and counts right. |
| ClusterSlots.ClusterState.DelNode | redis/src/cluster.c:948-975 | Frees the node's slots, clears every import and every master pointer that names it, and keeps agreement. |
| ClusterSlots.ClusterState.SetMyMaster | redis/src/cluster.c:4017-4033 | Turns this server into a replica; a former master also closes its open slots. The two assertions, not its own master and no slot in its cached count, hold whenever it owns no slot. |
| ClusterSlots.ClusterState.SendFailoverAuthIfNeeded | redis/src/cluster.c:2810-2911 | Grants exactly when every condition of the voting rule holds, and then changes only the last vote and the vote time of the candidate's master; the rule is spelled out by ClusterVoting.GrantIsExact. |
| ClusterSlots.ClusterState.ClaimsAreCurrent | redis/src/cluster.c:2882-2903 | Answers whether no claimed slot is served under a greater configuration epoch, stopping at the first that is. |
| ClusterSlots.ClusterState.ProcessAck | redis/src/cluster.c:2106-2118 | Counts an acknowledgement exactly when it comes from a slot-serving master and is not older than the election epoch. |
| ClusterSlots.ClusterState.HandleFailover | redis/src/cluster.c:3050-3220 | The handler in place equals the election function: idle, scheduled, waiting, requested or won. |
| ClusterSlots.ClusterState.GetMaxEpoch | redis/src/cluster.c:1011-1024 | Returns the greatest of the current epoch and all recorded configuration epochs. |
| ClusterSlots.ClusterState.BumpConfigEpochWithoutConsensus | redis/src/cluster.c:1055-1072 | Takes a new epoch exactly when its own is 0 or not the greatest, and says so. |
| ClusterSlots.AddAgrees | redis/src/cluster.c:3749-3798 | Setting the bit, the count and the table entry of a free slot keeps all nodes in agreement with the table. |
| ClusterSlots.DelAgrees | redis/src/cluster.c:3774-3809 | The bit of a slot's owner is set, and clearing bit, count and entry keeps agreement. |
| ClusterSlots.CountMeansServes | redis/src/cluster.c:3749-3784 | A node's cached count is positive exactly when the table gives it a slot. |
| AofRuns.CrashConsistency | redis/src/aof.c:710-916 | In every run of writes, flushes, short writes, switching on and off and background rewrites, at every moment with the file on, the file loads without a format error to a data set the server had, or to one between the commands that one write was written as. |
| AofRuns.HadIsData | redis/src/aof.c:598-636 | When no write outside a transaction is written as more than one command, only data sets the server really had remain. |
| AofRuns.Durability | redis/src/aof.c:338-494 | Once the write buffer was empty with the file on, whatever happens later, loading the file gives a data set from that moment or later. |
| AofRuns.HalfWritten | redis/src/aof.c:598-636 | Every write that is written as several commands can be half on disk: a run exists after which the file loads to the data set between them. |
| AofRuns.SetExHalfWritten | redis/src/aof.c:603-611 | A concrete run with SETEX after which the file loads to a data set the server never had. |
| AofRuns.RewriteWhileOff | redis/src/aof.c:1745-1785 | A rewrite while the file is off leaves it off and replaces it by a file that loads to a data set the server had. |
| AofRuns.RewriteLosesNothing | redis/src/aof.c:95-194 | While a rewrite runs, dump, bytes read by the child, bytes in the pipe and blocks still held spell exactly the log of the new file, which replays to the current data set unless the file is off. |
| AofRuns.ReloadAfterFlush | redis/src/aof.c:1784-1792 | Whenever the write buffer is empty, also right after the swap dropped it, loading the file gives the current data set. |
| AofRuns.WholeRewrite | redis/src/aof.c:1444-1476 | A whole rewrite with a write in every phase of the exchange exists as a run, and after the swap the file alone rebuilds all the writes. |
| AofRuns.StepKeepsInv | redis/src/aof.c:1593-1832 | Feeding, flushing, switching on and off, forking, pipe transfer, stop and acknowledgement, swap and failure all keep the old file, and the file under construction, faithful to the data. |
| AofRuns.SwapStep | redis/src/aof.c:1705-1792 | Replacing the file by dump, child diff and residual blocks, and dropping the write buffer, loses and repeats nothing; a file that is off stays off. |
| AofRuns.ReplayFeedAll | redis/src/aof.c:584-650 | Replaying what was fed applies exactly the writes as translated, each in its database, with SELECT emitted only on change. |
| AofRuns.ReplayFedUnits | redis/src/aof.c:584-650 | The units fed for a command or a transaction replay to the writes made; any proper prefix of them replays to the data set before or to one between the commands of one write. |
| AofRuns.FeedBuffer | redis/src/aof.c:584-637 | Builds exactly the bytes of the SELECT, if needed, and of the translated command. |
| AofTranslate.TranslateIsStable | redis/src/aof.c:598-636 | What is written for a command at one time would be written unchanged at any other time. |
| AofTranslate.ExpiresAreAbsolute | redis/src/aof.c:553-582 | A time to live is written as the moment it ends, in milliseconds, whatever the unit it was given in. |
| AofTranslate.TranslateIsWritten | redis/src/aof.c:598-636 | By position: EXPIRE, PEXPIRE and EXPIREAT become one PEXPIREAT of the key; SETEX and PSETEX the SET of key and fourth argument, then PEXPIREAT; SET with EX or PX its first three arguments, then PEXPIREAT with now + 1000 n or now + n, n following the last occurrence of the option; everything else itself. |
| AofTranslate.OptionArgIs | redis/src/aof.c:614-618 | The loop finds an option if and only if it occurs with an argument, and then the argument of its last occurrence. |
| AofTranslate.CatTranslated | redis/src/aof.c:598-636 | The branches and the option loop append exactly these commands in their wire form, each time to live as the moment it ends. |
| AofLoad.LoadAnyCut | redis/src/aof.c:764-916 | For every stream of commands and transactions and every number of bytes kept of its file, exactly the complete units are executed and no format error is reported; the file is cut at the end of the last of them if and only if the kept bytes do not end inside a command of a transaction whose MULTI is whole. |
| AofLoad.TornTransactionStays | redis/src/aof.c:853-916 | A concrete transaction of which 16 bytes are kept: nothing is executed, and the file is not cut back to its start. |
| AofLoad.LoadCut | redis/src/aof.c:764-916 | The truncation offset for every kind of cut: end of the last whole command if a command is torn, start of an open transaction otherwise, none if nothing is missing. |
| AofLoad.TruncationIsExact | redis/src/aof.c:853-916 | The file is truncated to the end of the last executed command if and only if the cut does not tear a command inside an open transaction. |
| AofLoad.AppendedAfterTornTransactionIsLost | redis/src/aof.c:885-916 | In the failing case, commands appended after the truncation are not executed by the next load. |
| AofLoad.LoadWhole | redis/src/aof.c:764-860 | Loading whole commands executes each of them and continues with the rest of the file. |
| AofLoad.LoadAppendOnlyFile | redis/src/aof.c:710-916 | The loop of the loader equals the recursive definition of loading, with its outcome. |
| AofLoad.ReadLine | redis/src/aof.c:779-783 | The line read is the longest prefix of at most 127 bytes with no newline before its last byte. |
| AofFormat.ReadEncoded | redis/src/aof.c:522-545 | Reading a printed command gives the command back and leaves the rest of the file. |
| AofFormat.CutCommand | redis/src/aof.c:764-830 | Every proper non-empty prefix of a printed command is reported as short, never as a format error. |
| AofFormat.ParseDec | redis/src/aof.c:522-545 | Parsing a printed decimal number gives the number back. |
| AofFormat.CatGenericCommand | redis/src/aof.c:522-545 | Appends exactly the wire form of the command. |
| AofBuffers.RewriteBuffer.Append | redis/src/aof.c:125-172 | Appends bytes to the block list: the last block is filled, then new blocks are added. |
| AofBuffers.RewriteBuffer.SendDiff | redis/src/aof.c:95-120 | For every sequence of write results, what was sent followed by what remains is what was there. |
| AofBuffers.RewriteBuffer.WriteAll | redis/src/aof.c:174-194 | A successful write of the residual blocks wrote all of them in order; a failed one wrote a prefix. |
| AofBuffers.WriteRetrying | redis/src/aof.c:300-317 | Writes a prefix of the data; the result is its length, or -1 when nothing could be written. |
| AofBuffers.AppendOnlyFile.Flush | redis/src/aof.c:338-494 | For every outcome of write and truncate, a flush that does not exit keeps file followed by buffer unchanged and the recorded size equal to the file length. |
| AclRoundTrip.RoundTrip | redis/src/acl.c:443-587 | For every user reachable by any sequence of rules, replaying its description on a fresh user succeeds at every rule and restores flags, passwords, patterns, command bits and subcommands. |
| AclRoundTrip.RoundTripIsExact | redis/src/acl.c:443-587 | The replayed user is identical if and only if it is not the case that all bits are set without the all-commands flag. |
| AclRoundTrip.DescribeNeverPanics | redis/src/acl.c:525-537 | The bitmap predicted while describing equals the user's bitmap, so the consistency check never fails. |
| AclRoundTrip.SetUserKeepsOk | redis/src/acl.c:737-901 | Every rule, accepted or refused, keeps the user well formed. |
| AclRoundTrip.ReachedIsOk | redis/src/acl.c:737-901 | Every user reached from a fresh one is well formed. |
| AclRoundTrip.RebuiltPerms | redis/src/acl.c:443-537 | The category rules followed by the fixes per command rebuild the bitmap and the subcommand lists. |
| AclRoundTrip.AuthRules | redis/src/acl.c:543-587 | The described flags, password hashes and key patterns replay to the same authentication state. |
| AclText.TextRoundTrip | redis/src/acl.c:1254-1440 | For every set of reachable users, the default user among them: loading the saved file succeeds and gives every user back, its all-commands flag set when every bit is, if and only if no allowed subcommand contains a space or a newline or ends in a tab or a carriage return. |
| AclText.LoadedIsClean | redis/src/acl.c:1274-1372 | No text whatever gives a loaded user a subcommand with such characters. |
| AclText.BlankIsLost | redis/src/acl.c:1254-1440 | Every accepted subcommand with such characters gives a user that is saved and not read back. |
| AclText.BlanksAreUnclean | redis/src/acl.c:1296-1340 | The subcommands "a b", "a\nb", "a\t" and "a\r" are accepted and do not survive the file. |
| AclText.LoadFromFile | redis/src/acl.c:1254-1392 | The loop over the lines equals the fold of the line reader, and keeps no user after any error. |
| AclText.SaveToFile | redis/src/acl.c:1404-1427 | The loop builds exactly the lines of all users. |
| AclText.DescribeReads | redis/src/acl.c:543-587 | Any property that blank-free rules have, and that a rule with a subcommand has exactly when the subcommand does, holds of all described rules if and only if it holds of all allowed subcommands. |
| AclText.SplitJoinIsExact | redis/src/acl.c:1301-1310 | Splitting undoes joining if and only if no rule contains a space. |
| AclText.FlagIsGained | redis/src/acl.c:376-387 | Allowing everything, then removing and adding one command reaches all bits set without the flag, and replaying the description sets the flag. |
| AclText.BlankIsAccepted | redis/src/acl.c:630-657 | A rule allowing a subcommand is accepted whatever blanks the subcommand contains. |
| AclRules.CategoryExact | redis/src/acl.c:393-410 | A category rule changes exactly the bits of the commands of the table that are flagged with the category and come from no module, drops exactly their subcommands, and clears the all-commands flag exactly when it clears a bit. |
| AclRules.CategoryRuleExact | redis/src/acl.c:885-890 | The same for `+@name` and `-@name` in any case; an unknown category is an error that changes nothing. |
| AclRules.CountExact | redis/src/acl.c:416-437 | The two counts are the numbers of commands of the category with the bit set and with it clear. |
| AclRules.CategoriesEmitted | redis/src/acl.c:470-487 | A description emits the rule of a category if and only if more of its commands differ from the starting point than agree with it. |
| AclRules.RemoveRuleExact | redis/src/acl.c:791-809 | `<password` and `!hash` delete one entry and keep the order of the others, or report a malformed hash or a missing password and change nothing. |
| AclRules.AddRuleExact | redis/src/acl.c:772-790 | `>password` and `#hash` add the entry at the end unless it is there, and end free access; a malformed hash changes nothing. |
| AclRules.AddThenRemove | redis/src/acl.c:772-810 | Removing a password just added gives the user back as it was. |
| AclPermissions.CheckCommandPerm | redis/src/acl.c:1060-1131 | Refuses the command if and only if neither flag, bit nor subcommand list allows it, then the first key that no pattern matches. |
| AclPermissions.CheckUserCredentials | redis/src/acl.c:954-988 | A user that is on is let in if and only if it needs no password or the hash of the password is among its own. |
| AclPermissions.DescriptionKeepsRights | redis/src/acl.c:443-587 | For every reachable user, the user replayed from its description may log in, call and touch exactly what it could before. |
| AclPermissions.FileKeepsRights | redis/src/acl.c:1254-1440 | The same through the file, for users whose subcommands survive it. |
| AclPermissions.CategoryRuleMeans | redis/src/acl.c:393-410 | After `+@name` the commands of the category may be called and every other as before; after `-@name` none of them, with any argument. |
| AclPermissions.CommandRuleMeans | redis/src/acl.c:827-884 | After `+name` or `-name` that command may or may not be called and every other as before. |
| AclPermissions.SubRuleMeans | redis/src/acl.c:836-876 | A subcommand rule adds exactly the calls with that first argument, in any case; for a command that is allowed already it is refused and changes nothing. |
| AclPermissions.KeywordMeans | redis/src/acl.c:740-771 | What `on`, `off`, `nopass`, `resetpass`, `allkeys`, `resetkeys`, `allcommands`, `nocommands` and `reset` allow afterwards. |
| AclPermissions.KeywordKeeps | redis/src/acl.c:740-771 | What each of these words leaves alone. |
| AclPermissions.RemoveRuleMeans | redis/src/acl.c:791-809 | The removed password no longer opens the account and every other does as before. |
| AclPermissions.AddRuleMeans | redis/src/acl.c:772-790 | The added password opens an account that is on, the others do as before, and free access ends. |
| AclPermissions.PatternRuleMeans | redis/src/acl.c:810-826 | `~pattern` adds exactly the keys that the pattern matches, or is refused for a user of all keys or a pattern with blanks. |
| AclUser.UserRecord.ApplyRule | redis/src/acl.c:737-901 | The interpreter in place equals the rule function, error results included. |
| AclUser.UserRecord.DelPassword | redis/src/acl.c:791-810 | Removes one entry equal to the hash and keeps the rest in order, or reports that there is none or that the hash is malformed and changes nothing. |
| AclUser.UserRecord.SetCommandBit | redis/src/acl.c:376-387 | Sets or clears one bit of the bitmap; clearing also clears the all-commands flag. |
| AclUser.UserRecord.SetCommandBitsForCategory | redis/src/acl.c:393-410 | In place: exactly the bits of the category's commands that come from no module become the value, exactly their subcommands go, everything else stays. |
| AclUser.UserRecord.AddAllowedSubcommand | redis/src/acl.c:630-657 | Adds a subcommand to the command's list unless it is there already. |
| AclUser.UserRecord.CommandRuleOn | redis/src/acl.c:737-860 | Command, category and subcommand rules, with the errors for unknown names and empty subcommands. |
| AclUser.UserRecord.CountCategoryBits | redis/src/acl.c:416-437 | Counts the allowed and denied commands of a category. |
| AclUser.UserRecord.DescribeRules | redis/src/acl.c:443-537 | Emits exactly the described rules, and the final check of the predicted bitmap holds. |
| AclUser.UserRecord.DescribeText | redis/src/acl.c:543-587 | The text built in place is the joined description. |
| AclUser.CopyUser | redis/src/acl.c:309-328 | The copy equals the source, subcommand lists included. |
| BlockedRuns.NoLostWakeUp | redis/src/blocked.c:474-527 | After every run of commands, transactions and time-outs without a silent store, no list client waits on a list that has items, the index agrees, no key holds an empty list and no ready key is left. |
| BlockedRuns.IndexAlwaysAgrees | redis/src/blocked.c:556-635 | After every run, silent stores included, a key is among a client's keys exactly when the client is in its waiting list, once, at the node it stored; no waiting list is empty and the counter is right. |
| BlockedDrain.HandleKeyKeepsIndex | redis/src/blocked.c:474-527 | Serving one ready key keeps the two-way index. |
| BlockedRuns.StoreIsExact | redis/src/db.c:244-253 | Storing a computed list is followed by a lost wake-up if and only if it overwrites a key that a list client waits for. |
| BlockedRuns.SilentStoreStrands | redis/src/sort.c:572-576 | A concrete run in which such a store strands a client next to a list that has an item. |
| BlockedRuns.PerformKeeps | redis/src/t_list.c:197-224 | Every command except a silent store, new sorted sets and streams that signal included, keeps each servable client queued for service. |
| BlockedRuns.FirstPresent | redis/src/t_list.c:688-718 | The key a blocking pop acts on is present and not an empty list; if there is none, every named key is missing or empty. |
| BlockedRuns.BlockKeeps | redis/src/t_list.c:679-733 | Blocking on keys without items adds no client that could be served at once. |
| BlockedDrain.DrainQuiesces | redis/src/blocked.c:474-527 | The drain of ready keys ends with nothing ready and no list client waiting on a list that has items. |
| Blocked.DrainSaved | redis/src/blocked.c:486-524 | Handling saved ready keys either unblocks a client or makes nothing new ready: the measure that ends the drain although serving can signal keys. |
| BlockedDrain.HandleKeyDrains | redis/src/blocked.c:214-269 | Serving one key leaves nobody servable on it and keeps every other servable client queued. |
| BlockedDrain.ServedInOrder | redis/src/blocked.c:214-262 | One pass serves list clients in the order they blocked, stops early only when the items run out, and moves the other clients behind in order. |
| BlockedDrain.PassLeavesNobodyHungry | redis/src/blocked.c:214-262 | After a pass no list client waits on the key while it has items. |
| BlockedItems.ItemsInOrder | redis/src/t_list.c:628-676 | Clients that pop from the same end and keep the item get the items of that end in the order they blocked. |
| BlockedItems.DrainConserves | redis/src/t_list.c:628-676 | The drain neither loses nor repeats an item: those stored and those handed out stay the same collection, also when a destination has the wrong type. |
| BlockedItems.ServeHeadConserves | redis/src/blocked.c:239-257 | Serving one client, with or without destination, conserves items. |
| BlockedItems.HandOutAt | redis/src/t_list.c:628-676 | From the head items are handed out in list order, from the tail in reverse. |
| BlockedIndex.BlockKeepsIndex | redis/src/blocked.c:556-597 | Blocking a client on any keys, repeated names included, keeps the two-way index and the counter right. |
| BlockedIndex.UnblockKeepsIndex | redis/src/blocked.c:601-635 | Unblocking removes the client from all its waiting lists and no other, and keeps index and counter right. |
| BlockedIndex.RotateKeepsIndex | redis/src/adlist.c:345-357 | Rotating a waiting list keeps every stored node valid. |
| BlockedIndex.OccursOnce | redis/src/blocked.c:556-597 | A blocked client occurs in a waiting list once, at the node it stored. |
| BlockedIndex.DropNodeEffect | redis/src/blocked.c:617-623 | Deleting a node removes exactly its entry and keeps nodes distinct. |
| BlockedOrder.PushReads | redis/src/t_list.c:197-224 | LPUSH of v1 .. vn reads vn .. v1 and then the old items, RPUSH the old items and then v1 .. vn; another type is refused; no other key changes. |
| BlockedOrder.PopTakes | redis/src/t_list.c:367-388 | A pop takes exactly the item at its end, deletes a list that runs empty and changes no other key. |
| BlockedOrder.MoveMoves | redis/src/t_list.c:565-605 | RPOPLPUSH makes the last item of the source the first of the destination, a rotation when they are one key; a destination of the wrong type changes nothing. |
| BlockedOrder.ServeHeadDelivers | redis/src/blocked.c:236-257 | A served client gets the item at its end, or it becomes the first of its destination and the rest is as before; with a destination of the wrong type the database is as before. |
| BlockedOrder.BlockingPopTakes | redis/src/t_list.c:688-718 | BLPOP and BRPOP act on the first of their keys that is there, exactly as a pop of that key. |
| BlockedOrder.StoresAreExact | redis/src/db.c:244-253 | Storing, setting and deleting replace the value of their key and nothing else. |
| BlockedTurns.BlockAppends | redis/src/blocked.c:556-597 | A client that blocks waits for exactly the keys it named, at the end of each of their lists, with a new node. |
| BlockedTurns.UnblockLeaves | redis/src/blocked.c:601-635 | Unblocking takes the client out of its lists and keeps the order of the others. |
| BlockedTurns.TurnsAreKept | redis/src/blocked.c:214-262 | After every run, the clients that wait for a list on one key stand in the order in which they blocked, whatever was served, given up or rotated meanwhile. |
| BlockedServer.Server.BlockForKeys | redis/src/blocked.c:556-597 | The loop in place equals blocking on all keys and keeps the index. |
| BlockedServer.Server.UnblockClient | redis/src/blocked.c:144-167 | Removing the client key by key, in any order, equals unblocking it, and keeps the index. |
| BlockedServer.Server.RemoveFromAll | redis/src/blocked.c:608-624 | Deleting the stored node of each key, in any order, removes exactly those nodes and the lists that become empty. |
| BlockedServer.Server.SignalKeyAsReady | redis/src/blocked.c:644-665 | Queues a key once, and only when somebody waits for it. |
| BlockedServer.Server.ServeFirst | redis/src/blocked.c:236-257 | In place: unblocks the client and delivers the item at its end, to it or as the first item of its destination; on a wrong destination type the database is as before. |
| BlockedServer.Server.ServeWaiting | redis/src/blocked.c:222-262 | The pass in place; the waiting list never runs out of nodes before its counter does. |
| BlockedServer.Server.HandleClientsBlockedOnKeys | redis/src/blocked.c:474-527 | The nested loops in place end and equal the drain. |
| Adlist.List.AddNodeHead | redis/src/adlist.c:88-106 | Prepends a value; links, ends and length stay right. |
| Adlist.List.AddNodeTail | redis/src/adlist.c:114-132 | Appends a value; links, ends and length stay right. |
| Adlist.List.InsertNode | redis/src/adlist.c:134-160 | Inserts before or after a node, at the ends too. |
| Adlist.List.DelNode | redis/src/adlist.c:166-180 | Removes exactly one node; the others keep order and identity. |
| Adlist.List.RotateHeadToTail | redis/src/adlist.c:345-357 | Moves the first node itself behind the last, so every pointer to a node stays valid. |
| Adlist.List.RotateTailToHead | redis/src/adlist.c:330-342 | Moves the last node itself before the first. |
| Adlist.RotationsUndo | redis/src/adlist.c:330-357 | The two rotations undo each other. |
| Adlist.Dup | redis/src/adlist.c:250-279 | Copies every value in order into a list of new nodes, gives no list exactly when some value cannot be copied, and leaves the original alone. |
| Adlist.List.Join | redis/src/adlist.c:361-376 | Concatenates two distinct lists and leaves the second empty and usable. |
| Adlist.Iter.Next | redis/src/adlist.c:229-240 | Returns the current node, having already stepped past it. |
| Adlist.DeleteWhileIterating | redis/src/adlist.c:216-240 | Iterating from the head while deleting any of the nodes just returned visits every element once, in order, and removes exactly the deleted ones. |
| Adlist.DeleteWhileIteratingBack | redis/src/adlist.c:186-240 | The same from the tail, in reverse order. |
| BitfieldOps.OpExact | redis/src/bitops.c:1030-1100 | INCRBY and SET leave the field reading as the exact result if it fits, else as its wrap-around or clamp, or write nothing under FAIL; no bit outside the field changes; the reply is the new or the previous value. |
| BitfieldOps.NewValueExact | redis/src/bitops.c:1046-1092 | What the code stores is what the policy asks for, in all cases but the two saturation corners. |
| BitfieldOps.CheckedExact | redis/src/bitops.c:1046-1092 | The overflow check of an operation reports as it should if and only if it is not one of the two saturation corners. |
| BitfieldOps.MisSaturated | redis/src/bitops.c:325-346 | In those corners SET with SAT stores the maximum where the nearest value is the minimum. |
| BitfieldOps.OpsCommute | redis/src/bitops.c:1030-1100 | Operations on fields that do not overlap commute, with the same replies. |
| BitfieldOps.ExecuteSigned | redis/src/bitops.c:1040-1072 | The signed code path equals the operation on the bits of the buffer, and replies as it says. |
| BitfieldOps.ExecuteUnsigned | redis/src/bitops.c:1073-1099 | The unsigned code path equals the operation on the bits of the buffer, and replies as it says. |
| BitfieldOps.GetField | redis/src/bitops.c:1102-1132 | GET through a nine-byte copy reads the field as if the string were followed by zeros for ever. |
| BitfieldOps.WindowField | redis/src/bitops.c:1110-1122 | Nine bytes hold every field of up to 64 bits at every offset. |
| Bitfield.UnsignedExact | redis/src/bitops.c:288-323 | For every value in range and every 64-bit increment the unsigned check reports overflow exactly when the sum does not fit, with the right limit. |
| Bitfield.SignedExact | redis/src/bitops.c:325-375 | The same for the signed check, 64-bit subtractions written out. |
| Bitfield.UnsignedSetExact | redis/src/bitops.c:1081-1087 | The unsigned check of a SET is right if and only if it is not SAT with a negative value. |
| Bitfield.SignedSetExact | redis/src/bitops.c:1054-1060 | The signed check of a SET is right if and only if it is not SAT with a value so negative that max - value leaves 64 bits. |
| Bitfield.WrapToUnique | redis/src/bitops.c:312-321 | The wrap-around is the only number in range that differs by a multiple of 2^bits. |
| BitfieldBuffer.ReadWrite | redis/src/bitops.c:209-241 | Reading a written field gives the value modulo 2^bits and leaves every other bit alone. |
| BitfieldBuffer.SetUnsignedBitfield | redis/src/bitops.c:209-222 | The bit-by-bit loop writes exactly the field. |
| BitfieldBuffer.GetUnsignedBitfield | redis/src/bitops.c:229-241 | The bit-by-bit loop reads exactly the field. |
| BitfieldBuffer.SetSignedBitfield | redis/src/bitops.c:224-227 | Writes the two's complement bits of a signed value. |
| BitfieldBuffer.GetSignedBitfield | redis/src/bitops.c:243-263 | Reads the field as two's complement, by extending its top bit. |
| BitNumbers.FromToBits | redis/src/bitops.c:209-241 | Writing a number in n bits and reading it gives it modulo 2^n. |
| Popcount.Count | redis/src/bitops.c:40-92 | For every string at every alignment the fast count is the number of set bits. |
| Popcount.Chunk | redis/src/bitops.c:57-87 | The sums inside seven words, multiplied and shifted, are the bit count of 28 bytes. |
| Popcount.FoldedIs | redis/src/bitops.c:71-84 | The three folding steps leave in each byte lane the bit count of that byte. |
| Popcount.Gather | redis/src/bitops.c:85-87 | The multiplication adds the four lanes into the top byte without overflow. |
| Bitpos.FindFirst | redis/src/bitops.c:101-186 | For every string at every alignment returns the first position of the bit, -1 for a one that is missing, the length in bits for a zero that is missing; the panic at the end is unreachable. |
| Bitpos.FirstIsUnique | redis/src/bitops.c:101-186 | That description determines the result. |
| Bitpos.LoadWord | redis/src/bitops.c:151-159 | Loads up to eight bytes, first one most significant, zeros past the end. |
| Bitpos.ScanWord | redis/src/bitops.c:168-181 | The scan of the last word stops inside the word, at its first matching bit. |
| Bitop.BitOp | redis/src/bitops.c:615-744 | For every set of sources, missing keys included, the result is as long as the longest, and each of its bits is set exactly when that bit is set in all, in some, in an odd number of the sources padded with zeros, or not in the one. |
| Bitop.CombinedBit | redis/src/bitops.c:730-742 | Bit i of a result byte is set exactly when it is set in all, in some, in an odd number of the padded sources, or not in the one. |
| Bitop.FastPath | redis/src/bitops.c:655-722 | The 32-byte chunks give the same bytes as the plain loop. |
| Chan.RunBoth | cpp/src/chan.h:99-203 | Every sequence of push, pop and close steps has the same results and the same contents on the ring buffer and on the list-based queue. |
| Chan.FirstInFirstOut | cpp/src/chan.h:117-156 | A buffered blocking channel delivers each accepted value once, in order; the rest is still queued. |
| Chan.RendezvousTakesBack | cpp/src/chan.h:98-109 | A channel of capacity 0 delivers what it accepted in order, but for at most one value, taken back by the close. |
| Chan.ClosedOnlyDrains | cpp/src/chan.h:117-156 | A closed channel accepts nothing and still delivers what it holds, in order. |
| Chan.StepsWaitExactly | cpp/src/chan.h:117-143 | A push waits exactly while the channel is open and full and fails exactly when closed; a pop waits exactly while open and empty. |
| Chan.DiscardKeeps | cpp/src/chan.h:169-187 | After any number of pushes, the policy that discards old values keeps the newest that fit, the other one the oldest. |
| Chan.RingQueue.Push | cpp/src/chan.h:117-137 | Appends when there is room; when full drops exactly the oldest or refuses, as the policy says; refuses when closed; counters stay in range. |
| Chan.RingQueue.PushUnsafe | cpp/src/chan.h:169-187 | The same without the closed test; the assertion about the policy holds. |
| Chan.RingQueue.Pop | cpp/src/chan.h:138-156 | Takes the oldest item, or reports closed and empty. |
| Chan.RingQueue.Close | cpp/src/chan.h:98-109 | Closes; an unbuffered channel also takes back the value not yet received. |
| Chan.RingQueue.ResetPos | cpp/src/chan.h:198-202 | Reduces the counters without moving an item. |
| Chan.ListQueue.Push | cpp/src/chan.simple.h:69-88 | Appends unless closed. |
| Chan.ListQueue.Pop | cpp/src/chan.simple.h:48-66 | Takes the oldest item, or reports closed and empty. |
| Chan.ListQueue.Close | cpp/src/chan.simple.h:37-45 | Closes, and takes back the value of an unbuffered channel. |
| QuickSort.Sort | code/quick_sort/quick_sort.c:69-72 | Leaves a sorted permutation of every array. |
| QuickSort.Qsort | code/quick_sort/quick_sort.c:41-67 | Sorts a range, permutes only that range, and terminates. |
| QuickSort.Partition | code/quick_sort/quick_sort.c:46-62 | Splits the range around a pivot inside it; the unguarded scans stay in bounds. |
| QuickSort.ScanUp | code/quick_sort/quick_sort.c:52-53 | The scan stops at the latest at the hidden pivot. |
| QuickSort.ScanDown | code/quick_sort/quick_sort.c:54-55 | The scan stops at the latest at the first element. |
| QuickSort.Median3 | code/quick_sort/quick_sort.c:26-39 | Orders first, middle and last and hides the median next to the last. |
| QuickSort.InsertionSort | code/quick_sort/quick_sort.c:5-16 | Sorts a range and permutes only that range. |
| RadixSort.LsdRadixSort | code/LSDradix_sort.c:36-97 | A permutation ordered by the last four digits of every key, and sorted when every key has at most four. |
| RadixSort.CollectedOrdered | code/LSDradix_sort.c:50-86 | A pass over a list ordered by its lower digits orders it by one digit more. |
| RadixSort.PassIsStable | code/LSDradix_sort.c:52-86 | Keys with the same digit keep their order in a pass. |
| RadixSort.PassPermutes | code/LSDradix_sort.c:52-86 | A pass loses and repeats no key. |
| RadixSort.Distribute | code/LSDradix_sort.c:53-71 | Each bucket holds exactly the keys of its digit, in list order. |
| RadixSort.Collect | code/LSDradix_sort.c:73-85 | Joins the buckets in digit order. |
| RadixSort.GetDigit | code/LSDradix_sort.c:25-34 | The repeated division finds digit d of the key. |
| RadixSort.MsdRadixSort | code/MSDradix_sort.c:89-92 | A permutation of the array, sorted when every key has at most four digits. |
| RadixSort.MsdSorts | code/MSDradix_sort.c:37-87 | The recursion sorts keys that agree on all higher digits. |
| RadixSort.MsdSort | code/MSDradix_sort.c:37-87 | In place the range becomes exactly its recursively sorted buckets and the rest of the array stays. |
| RadixSort.SortedIsUnique | code/MSDradix_sort.c:89-92 | Two sorted permutations of the same keys are equal, so both radix sorts give the same array. |
| QuickSort.PartsSorted | code/quick_sort/quick_sort.c:62-64 | Sorting the parts on both sides of the pivot sorts the whole. |

## Left out

- Sockets, files, fork, signals, logging and client replies: calls are outcomes chosen freely where a property depends on them, and absent otherwise.
- Gossip, handshakes, Pub/Sub, module and manual-failover messages, failure reports and cluster state computation: a server's view of who failed and of the cluster size is a parameter of the election.
- CLUSTER RESET and lost vote records: epochs and election safety are stated for runs without them.
- Election safety with different views of the electorate, and a promoted replica voting in its own winning epoch: the electorate of an epoch is fixed.
- Importing slots during slot propagation: convergence is stated for servers that import none and own slots only as masters.
- AOF preamble in RDB format, rewriting of each data type and disabled truncation: the dump of a rewrite is any log that replays to the data at the fork.
- AofRuns.ReplayFedUnits: what a command does to the data is taken to be what its translation does; that the two agree for a given command is not proved.
- ClusterRuns.AdminKeeps: REPLICATE on a replica that owns slots, which aborts, is not an event, and that a master with keys refuses REPLICATE is not modelled.
- What a server does after an abort: a packet whose handling would abort is never handled in a run, and the other theorems speak of the packets that are.
- Password hashing, glob matching and the search for the keys of a command in `acl.c`: the hash is a function giving 64 lower-case hexadecimal characters, matching any relation, and a call comes with its keys.
- ClusterVoting.VotesAreSpaced: not for a master forgotten in between, because a server that learns it again starts without a vote time (ClusterVoting.ForgettingResets).
- Serving sorted sets, streams and modules in `blocked.c`: clients blocked on them are present in the waiting lists and are rotated past, but never served.
- BlockedDrain.ServedInOrder: when a pass stops early, clients of other types that were rotated end up behind those not yet looked at; their order is given exactly but is not the blocking order.
- Time-out bookkeeping and reprocessing of unblocked clients: a time-out is the unblocking of any client at any moment.
- List search, indexing and releasing in `adlist.c`: easier versions of what is proved.
- BITFIELD of width 64, where the shifts of the code leave the defined range of C, and the parsing of BITFIELD arguments.
- Popcount.Count: the table of bit counts per byte is modelled as the function it tabulates.
- Waiting, waking and fairness of threads in `chan.h`, and what an unbuffered push reports after its value was received while the channel closes: steps are taken when their wait condition holds.
- Bitop.FastPath: the words of eight bytes are combined byte by byte, so the in-memory order of the bytes of a word does not appear.
- Chan.RingQueue.Push: covers the step under the lock up to storing the value, not the wait of an unbuffered push for its receiver.
- Chan.ListQueue.Push: the same step of the list-based queue, without that wait.
- Chan.RunBoth: compares sequences of such steps, so the wait of an unbuffered push is not compared.
- RadixSort.Distribute: the bucket lists are sequences, so relinking their nodes is not captured.
- RadixSort.Collect: the same, and freeing nodes is not captured. Negative keys, which would index a bucket out of range, are outside the model.
- The other sorts in `code/` and the linked structures of the notes: easier claims of the same kind.
