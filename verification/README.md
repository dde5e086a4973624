# Game infrastructure of KosSim, verified

Four pieces of the attack-defence platform that keep state over long runs, modelled in Dafny and proved
correct where they are, with exact conditions where they are not.

- **Team networks** (`IntervalFamilies`, `NetworkConfig`, `NetworkRoundTrip`). A team id is spread over the
  octets of an address; `network_ip_to_id` finds it back by searching for the first common point of periodic
  interval families. The same loop is in the service template of the game library.
- **VPN firewall** (`FirewallRules`, `FirewallModel`, `FirewallVerdicts`, `FirewallAddresses`,
  `IpTablesManager`, `FirewallRuns`). A rule chain that messages edit in place and a watcher thread rebuilds.
  A rule is a match, a target and a comment; leaving the chain at its end counts as returning from it.
- **CTF timer** (`TimerModel`, `CTFTimer`, `CTFTimerSlave`, and the `Timer*` modules). The master opens and
  closes ticks and replicates its fields through Redis; slaves start from the store, hear the channel and
  give commands. The master hears the channel too, its own messages included.
- **VPN stream parser** (`Frames`, `StreamParser`, `Stream`, `StreamRuns`, `PcapExtract`,
  `PcapConversations`). A three-state incremental parser over two byte buffers, and the capture loop that feeds
  it and writes what it yields.

Each component has values and functions that say what an operation does, classes or loops in the form of
the source proved against these functions, and lemmas about all runs. Clock readings, the largest team id in
the database and the iteration orders of Python sets are parameters.

## What does not hold

In these places the code does less than its documentation or its design suggests. The lemmas named give the
exact condition, and where it helps a concrete case.

- `network_ip_to_id` is documented to answer None for addresses outside the network. It checks neither
  constant octets nor the upper end of a variable one: an id it finds owns the address exactly when every octet
  is one the layout can produce (`FoundIdOwnsAddress`, `ForeignAddressIsAttributed`).
- The master hears its own messages, and late ones put old values back. Heard at once they change nothing
  (`PromptEchoHarmless`).
  - Listener events are in order exactly as long as no tick is ended or opened while tick and state differ from
    what the listeners were told (`EventsInOrderExactly`), which takes an own state or tick number that is no
    longer current (`EventsAgreeExactly`, `LateEchoBreaksOrder`, `LateEchoRepeatsTick`, `LateEchoIsPossible`).
  - A stop after tick k is undone by an own start heard once tick k has begun, although no one gave a new start
    command (`LateStartReopens`, `LateStartIsPossible`), and before that by an own older setting of the last
    tick. Left alone it holds in all runs, whatever else is heard (`StopsAfterTick`).
- The stored tick records are those of the ticks begun, sound and in order, exactly as long as no step opens a
  tick before the recorded end of the last one, or rewrites the record of the open tick with an end that is not
  start plus tick time or a start before the last recorded end, or hears an outdated tick number
  (`RecordsInOrderExactly`). The first two can be brought about by
  - a slave that shortens the open tick, since the master does not rewrite the record upon hearing it
    (`HeardTickTimeOrder`, `HeardTickTimeThenHalt`, `CommandRestoresOrder`, `ShorterTickTimeOverlaps`);
  - a step between the two messages of its command (`HalfHeardRecord`, `HalfHeardFields`,
    `HalfHeardTickTimeSkews`);
  - an own message heard late, be it a state other than RUNNING (`LateStateOverlaps`, `LateStateIsPossible`) or
    a time of the tick (`StepRecords`).
- `start_ctf` on a running master takes back a pending suspend or stop without publishing it (`StepSyncs`).
  Replicas then differ from the master in the desired state, and at no other time once all is heard
  (`MasterAndReplicaAgree`).
- A timer created while the store has no state ignores everything else stored, such as an early start
  command, and one created between the first two writes of a master fails (`InitFaithful`,
  `EarlyCommandIsLost`). A field of a replica is right exactly when it was read right or its key has been
  written since the replica subscribed (`ConvergesExactly`, `ConvergesExceptMissed`, `GapLosesUpdate`).
- A scheduled start is carried out exactly when some check falls on the scheduled second or one of the four
  after it (`ScheduleExact`), so checks more than five seconds apart can miss it (`ScheduleMet`).

## Assumptions

- Layouts have positive weights and moduli and at least one variable octet in the prefix; otherwise the source
  divides by zero or takes the maximum of an empty list.
- The clock is positive and never goes back, tick times are positive, listeners do not touch the timer.
- One set-and-publish is one step, and so is one command or check of the master. A slave's command is not: it
  changes the fields, then reads and writes one value after the other, and may hear messages in between. The
  watcher's rewrite is three steps, and a message of the firewall two.
- The eight reads of a starting timer may have any writes between them: what they return is one store value,
  `seen` in `ConvergesExceptMissed`, each key of which may have been read at another moment. Only the method
  `InitFromRedis` itself reads all eight at once.

## Model

First the main results, then the lemmas that carry or delimit them, then the methods of the objects, each
proved against the function that specifies it.

| member | source | states |
|---|---|---|
| `Network.Search` | ecsc/ecsc2025-gameserver/saarctf_commons/config.py:145-154 | the search ends, and answers the least common point below 0xFFFF, or None when there is none |
| `Network.NetworkIpToId` | ecsc/ecsc2025-gameserver/saarctf_commons/config.py:129-154 | for every layout and address the answer is the least common point; for in-range addresses it is the least nonnegative id with these variable octets, and None exactly when no id below 0xFFFF has them |
| `NetworkRoundTrip.RoundTrip` | ecsc/ecsc2025-gameserver/saarctf_commons/config.py:113-154 | any layout, any id below 0xFFFF: the way there and back gives an id no larger, in the same network, the least such |
| `NetworkRoundTrip.RoundTripMixedRadix` | ecsc/ecsc2025-gameserver/saarctf_commons/config.py:113-154 | in a mixed-radix layout the round trip is id modulo the product of the b values, hence the identity exactly below that product |
| `NetworkRoundTrip.FoundIdOwnsAddress` | ecsc/ecsc2025-gamelib/docs/central_server_template.py:48-73 | the documented promise (an id if the address is in its network): a found id owns the address exactly when every octet of the prefix is one the layout can produce |
| `FirewallRuns.ChainMatchesFields` | ecsc/ecsc2025-gameserver/vpn/manage-iptables.py:98-456 | in every run with the watcher interleaved, whenever nothing is half done the chain has the shape of state, banned and allowed |
| `FirewallRuns.EditedRefinesRebuilt` | ecsc/ecsc2025-gameserver/vpn/manage-iptables.py:88-456 | whenever nothing is half done, the edited chain gives every packet the verdict of a freshly built one, in any set iteration order, and of the policy |
| `FirewallRuns.FieldsFollowMessages` | ecsc/ecsc2025-gameserver/vpn/manage-iptables.py:381-456 | in every run state, banned and allowed are what the last message about each says; the watcher changes none |
| `FirewallVerdicts.ShapedVerdict` | ecsc/ecsc2025-gameserver/vpn/manage-iptables.py:106-219 | closed form: every chain of the shape decides every packet by the policy (allowed team traffic first, then the state, then bans) |
| `FirewallVerdicts.ShapedRules` | ecsc/ecsc2025-gameserver/vpn/manage-iptables.py:53-60 | no rule occurs twice, and the ban and allow rules present are those of exactly the banned and allowed teams |
| `FirewallVerdicts.BanUnbanRestores` | ecsc/ecsc2025-gameserver/vpn/manage-iptables.py:142-224 | ban then unban gives back the identical chain exactly when the team was not banned before |
| `FirewallVerdicts.AllowDisallowRestores` | ecsc/ecsc2025-gameserver/vpn/manage-iptables.py:299-346 | the same for allow then disallow |
| `TimerEvents.EventsInOrder` | ecsc/ecsc2025-gameserver/controlserver/timer.py:224-318 | every run without such an outdated message: tick events alternate without gap, repeat or overlap, a tick is open exactly when RUNNING, suspend and end come right after an end-tick |
| `TimerEvents.EventsInOrderExactly` | ecsc/ecsc2025-gameserver/controlserver/timer.py:157-318 | every run, whatever the master hears and when: the listener events are in order exactly when no tick was ended or opened while tick and state differed from what the listeners had been told; in order means alternating tick events and halts right after a tick end |
| `TimerRounds.RecordsInOrder` | ecsc/ecsc2025-gameserver/controlserver/timer.py:157-340 | every run of such steps: records for exactly ticks 1 to current, end is start plus time, no record overlaps the next, also with tick times changed while a tick is open or the game is suspended |
| `TimerRecords.RecordsInOrderExactly` | ecsc/ecsc2025-gameserver/controlserver/timer.py:157-340 | every run, whatever the master hears and when: records for exactly ticks 1 to current, sound and in order, all along exactly when no step spoils them; for exactly these ticks, sound or not, exactly when no outdated tick number is heard |
| `TimerStopAfter.StopsAfterTick` | ecsc/ecsc2025-gameserver/controlserver/timer.py:224-299 | a stop set for tick k still to come, and left alone: no undisturbed run starts a tick after k, whatever the master hears and when; once tick k was started nobody wants another, and a check that ends a tick leaves a timer that is not RUNNING |
| `TimerReplica.ReplicaConverges` | ecsc/ecsc2025-gameserver/controlserver/timer.py:144-176 | without such a gap all eight fields hold the stored values |
| `TimerReplica.ConvergesExactly` | ecsc/ecsc2025-gameserver/controlserver/timer.py:144-176 | whatever fields a replica began with, any interleaving of writers and own commands: once caught up, a field holds the stored value exactly when its key was written since it subscribed or it began with the right value |
| `TimerGame.MasterAndReplicaAgree` | ecsc/ecsc2025-gameserver/controlserver/timer.py:144-402 | every run of master, replica and other slaves on one channel: whenever all is heard the replica has exactly the master's fields, unless the master took back a halt and has neither written nor heard a desired state since; then they differ in the desired state only |
| `StreamRuns.ChunkingIndependent` | ecsc/ecsc2025-service-firewall/meta/pcap-extract.py:55-115 | fields, buffers and the packets of each direction depend only on the bytes of each direction |
| `StreamRuns.BytesConserved` | ecsc/ecsc2025-service-firewall/meta/pcap-extract.py:46-86 | in every reachable state login, emitted packets and leftover re-encode to the outbound bytes received, and addresses, packets and leftover to the inbound ones |
| `StreamRuns.ParserUndoesPrinter` | ecsc/ecsc2025-service-firewall/meta/pcap-extract.py:46-86 | any printed login, addresses and packets are read back from any chunks, with nothing left over |
| `StreamRuns.NothingLeftToEmit` | ecsc/ecsc2025-service-firewall/meta/pcap-extract.py:76-86 | once established no complete frame waits, and another call emits nothing |
| `StreamRuns.OutputGrows` | ecsc/ecsc2025-service-firewall/meta/pcap-extract.py:76-86 | on longer streams, however cut, the output only grows at its end |
| `PcapConversations.ConversationWritten` | ecsc/ecsc2025-service-firewall/meta/pcap-extract.py:55-147 | any conversation, told by its endpoints and cut into any segments: written are one announcement of this login and these addresses, and then exactly the packets that are not empty, in order per direction |
| `PcapExtract.ConnectionsIndependent` | ecsc/ecsc2025-service-firewall/meta/pcap-extract.py:88-115 | what the capture keeps and writes for a connection depends on that connection's segments alone |
| `IntervalFamilies.ContainsIsDigit` | ecsc/ecsc2025-gameserver/saarctf_commons/config.py:130-134 | for an in-range octet, lying in one of the intervals of the comment is the same as having that digit |
| `IntervalFamilies.NoPointSkipped` | ecsc/ecsc2025-gameserver/saarctf_commons/config.py:152-154 | a point of a family past the current interval is at least one full period away, so advancing by a period skips nothing |
| `Network.FamiliesMeaning` | ecsc/ecsc2025-gameserver/saarctf_commons/config.py:139-144 | the families built from the components with b > 1 stand for all variable octets of the prefix and nothing else |
| `Network.CommonIsReproduces` | ecsc/ecsc2025-gameserver/saarctf_commons/config.py:130-144 | the common points of the families are exactly the nonnegative ids with all requested variable octets |
| `Network.SlackDecreases` | ecsc/ecsc2025-gameserver/saarctf_commons/config.py:145-154 | the measure that makes the search end: advancing one position that was below the limit, and moving none back, strictly lowers it |
| `Network.CoversStep` | ecsc/ecsc2025-gameserver/saarctf_commons/config.py:152-154 | one advance keeps every position on its grid and at or before every common point |
| `Network.OverlapIsLeast` | ecsc/ecsc2025-gameserver/saarctf_commons/config.py:146-151 | if the current intervals overlap, the largest position is the least common point |
| `Network.CatchUp` | ecsc/ecsc2025-gameserver/saarctf_commons/config.py:152-154 | after the inner loops every interval ends beyond the largest position, positions only moved on by whole periods, and the nearest interval moved |
| `NetworkRoundTrip.ForeignAddressIsAttributed` | ecsc/ecsc2025-gamelib/docs/central_server_template.py:36-73 | two addresses that belong to no team of the fallback layout; a certain team is the only answer the search can give |
| `NetworkRoundTrip.DigitsAreRemainder` | ecsc/ecsc2025-gameserver/saarctf_commons/config.py:113-118 | in a mixed-radix layout two ids share all octets exactly when they agree modulo the capacity |
| `NetworkRoundTrip.NetworksDisjoint` | ecsc/ecsc2025-gameserver/saarctf_commons/config.py:113-118 | teams below the capacity have different networks |
| `NetworkRoundTrip.InverseUnique` | ecsc/ecsc2025-gameserver/saarctf_commons/config.py:129-154 | for every layout and address the specification of the search allows one answer only |
| `FirewallRules.FirstMatchUniform` | ecsc/ecsc2025-gameserver/vpn/manage-iptables.py:106-132 | among rules with one target only membership decides, not order |
| `FirewallRules.RemoveAfterDelete` | ecsc/ecsc2025-gameserver/vpn/manage-iptables.py:63-68 | deleting the first equal rule until that fails removes every equal rule and nothing else |
| `FirewallModel.VulnboxBlock` | ecsc/ecsc2025-gameserver/vpn/manage-iptables.py:116-121 | the vulnbox rules end up as one block in front of the rules inserted before them |
| `FirewallModel.VulnboxMembers` | ecsc/ecsc2025-gameserver/vpn/manage-iptables.py:134-140 | the block rejects traffic from and to exactly the vulnboxes of teams 1 to max id + 1 |
| `FirewallModel.BanKeepsLayout` | ecsc/ecsc2025-gameserver/vpn/manage-iptables.py:147-219 | banning appends the team's six rules behind everything else, or changes nothing if the team is banned already |
| `FirewallModel.UnbanKeepsLayout` | ecsc/ecsc2025-gameserver/vpn/manage-iptables.py:226-297 | unbanning takes out exactly the team's rules and keeps the order of all others |
| `FirewallModel.AllowKeepsLayout` | ecsc/ecsc2025-gameserver/vpn/manage-iptables.py:309-339 | allowing puts the team's rules in front of everything else, or changes nothing if the team is allowed already |
| `FirewallModel.DisallowKeepsLayout` | ecsc/ecsc2025-gameserver/vpn/manage-iptables.py:348-378 | disallowing takes out exactly the team's rules and keeps the order of all others |
| `FirewallModel.RewriteShaped` | ecsc/ecsc2025-gameserver/vpn/manage-iptables.py:106-132 | a rebuilt chain has the shape of state, banned and allowed, whatever the set iteration orders |
| `FirewallModel.BanKeepsShape` | ecsc/ecsc2025-gameserver/vpn/manage-iptables.py:142-145 | ban_team takes the shape for the old banned set to the shape for the new one |
| `FirewallModel.UnbanKeepsShape` | ecsc/ecsc2025-gameserver/vpn/manage-iptables.py:221-224 | the same for unban_team |
| `FirewallModel.AllowKeepsShape` | ecsc/ecsc2025-gameserver/vpn/manage-iptables.py:299-307 | the same for add_network_team |
| `FirewallModel.DisallowKeepsShape` | ecsc/ecsc2025-gameserver/vpn/manage-iptables.py:341-346 | the same for remove_network_team |
| `FirewallModel.HandledAllMeaning` | ecsc/ecsc2025-gameserver/vpn/manage-iptables.py:439-456 | any list of messages: the state is that of the last state message, and a team is banned or allowed exactly when the last message that says whether it is says so |
| `FirewallVerdicts.BaseVerdict` | ecsc/ecsc2025-gameserver/vpn/manage-iptables.py:108-128 | what the state rules decide for every packet; only state on leaves packets undecided |
| `FirewallVerdicts.BansMatterOnlyWhenOn` | ecsc/ecsc2025-gameserver/vpn/manage-iptables.py:106-132 | outside state on the banned set changes no verdict |
| `FirewallVerdicts.VulnboxesRejected` | ecsc/ecsc2025-gameserver/vpn/manage-iptables.py:134-140 | in state team-no-vulnbox a packet no allowance covers is rejected if its source or destination is, octet by octet, the vulnbox of a team up to one above the largest id |
| `FirewallAddresses.OctetIsDigit` | ecsc/ecsc2025-gameserver/saarctf_commons/config.py:89-95 | an octet is c plus the digit of the id at the place of weight a in base b, put without division |
| `FirewallAddresses.InTeamRange` | ecsc/ecsc2025-gameserver/saarctf_commons/config.py:113-118 | an address is in the range of a team exactly when the octets within the network size are the team's |
| `FirewallAddresses.AllowedTeamPasses` | ecsc/ecsc2025-gameserver/vpn/manage-iptables.py:309-339 | traffic between an allowed team, told by its octets, and the game servers passes in every state, whoever is banned |
| `FirewallRuns.StepKeepsInv` | ecsc/ecsc2025-gameserver/vpn/manage-iptables.py:106-132 | message halves and watcher phases, in any order the lock permits, keep the chain laid out for the fields up to what is still half done |
| `FirewallRuns.LargestIdKnown` | ecsc/ecsc2025-gameserver/vpn/manage-iptables.py:106-140 | the largest team id the chain knows of is the one read when the base rules were last written, for a state message or by the watcher |
| `TimerOperations.StartOpensNow` | ecsc/ecsc2025-gameserver/controlserver/timer.py:258-273 | a start command opens the next tick at once for one tick time and leaves a schedule alone; while RUNNING it only says that the game is to go on |
| `TimerOperations.FreshMasterWaits` | ecsc/ecsc2025-gameserver/controlserver/timer.py:55-66 | a master just created does nothing by itself, and its first start opens tick 1 for the tick time given |
| `TimerOperations.CheckOutcome` | ecsc/ecsc2025-gameserver/controlserver/timer.py:224-255 | all cases of check_time by fields: continue at the old end or, more than a second late, now; halt; start as wanted; start by schedule and use it up; nothing |
| `TimerOperations.SettingsSet` | ecsc/ecsc2025-gameserver/controlserver/timer.py:84-110 | each command sets its field and nothing else; a new tick time moves the end of a tick that has a start, open or not |
| `TimerOperations.ChangesAreTold` | ecsc/ecsc2025-gameserver/controlserver/timer.py:84-110 | a setting that is no change writes nothing; all others tell all times |
| `TimerOperations.TimesTold` | ecsc/ecsc2025-gameserver/controlserver/timer.py:321-340 | the eight keys with their values, in order, the record of an open tick, and the listeners last |
| `TimerOperations.ListenSetsField` | ecsc/ecsc2025-gameserver/controlserver/timer.py:157-176 | which field each message sets, and to what; a tick time of 0 is not taken |
| `TimerOperations.ListenersToldLast` | ecsc/ecsc2025-gameserver/controlserver/timer.py:321-333 | listeners hear of new times last whenever anything is written, and nothing otherwise |
| `TimerOperations.ScheduleAfter` | ecsc/ecsc2025-gameserver/controlserver/timer.py:249-255 | a schedule is gone after the start it brings about, and no other step touches it but those that set it |
| `TimerOperations.OneScheduleOneTick` | ecsc/ecsc2025-gameserver/controlserver/timer.py:249-255 | every run in which no schedule is set: at most one tick is opened by schedule |
| `TimerOperations.NothingStartsByItself` | ecsc/ecsc2025-gameserver/controlserver/timer.py:224-273 | every run in which nobody asks for the game: no tick is opened and no record written |
| `TimerEvents.StepTold` | ecsc/ecsc2025-gameserver/controlserver/timer.py:157-340 | every step, whether a check, a command, a message of a slave or one of the master's own, keeps listener events in protocol order and in agreement with tick and state, except exactly an own outdated state or tick number |
| `TimerEvents.ReplayAlternates` | ecsc/ecsc2025-gameserver/controlserver/timer.py:232-238 | events in protocol order are start 1, end 1, start 2, and so on |
| `TimerEvents.LateEchoRepeatsTick` | ecsc/ecsc2025-gameserver/controlserver/timer.py:157-238 | any tick number n heard late in an open tick: the next check that ends the tick ends n and starts n + 1, which listeners have seen before if n is an earlier tick |
| `TimerEvents.HearingTold` | ecsc/ecsc2025-gameserver/controlserver/timer.py:157-176 | any message heard keeps the events in agreement with tick and state exactly when it does not tell another tick or state |
| `TimerEvents.LateEchoBreaksOrder` | ecsc/ecsc2025-gameserver/controlserver/timer.py:157-273 | any state or tick number heard: the next step of the master's own keeps the events in order exactly when the value is current or the step ends and opens no tick |
| `TimerEvents.LateEchoIsPossible` | ecsc/ecsc2025-gameserver/controlserver/timer.py:178-221 | a run in which such a message is still to be heard |
| `TimerEvents.StepOrdered` | ecsc/ecsc2025-gameserver/controlserver/timer.py:157-340 | one step keeps the events in order except exactly a check or start command that ends or opens a tick in such a moment |
| `TimerEvents.EventsAgreeExactly` | ecsc/ecsc2025-gameserver/controlserver/timer.py:157-318 | every run: the events agree with tick and state all along exactly when each own state and tick number the master hears is current |
| `TimerRounds.StepKeepsRounds` | ecsc/ecsc2025-gameserver/controlserver/timer.py:157-340 | every step keeps the records in order, unless a message changes the times of the open tick, or a slave's tick time ends it before its recorded end |
| `TimerRounds.MasterAloneIsOrderly` | ecsc/ecsc2025-gameserver/controlserver/timer.py:84-110 | runs of the master without messages consist of such steps, whatever is set when |
| `TimerRecords.HeardTickTimeOrder` | ecsc/ecsc2025-gameserver/controlserver/timer.py:169-172 | after a slave changed the tick time of an open tick, the records stay in order exactly when the next tick starts no earlier than the old recorded end |
| `TimerRecords.ShorterTickTimeOverlaps` | ecsc/ecsc2025-gameserver/controlserver/timer.py:353-359 | a run in which they overlap |
| `TimerRecords.HalfHeardTickTimeSkews` | ecsc/ecsc2025-gameserver/controlserver/timer.py:169-172 | a run in which a check falls between the two messages of that command, and a record ends up with an end that is not start plus time |
| `TimerRecords.StepRecords` | ecsc/ecsc2025-gameserver/controlserver/timer.py:157-340 | one step leaves the records sound and in order exactly when it does not open a tick before the recorded end of the last, nor rewrite the open tick's record while its fields are skewed, nor hear an outdated tick number |
| `TimerRecords.TellingSoundExactly` | ecsc/ecsc2025-gameserver/controlserver/timer.py:321-340 | telling fields in an open tick leaves all records sound exactly when the end in the fields is start plus tick time |
| `TimerRecords.RewritingSoundExactly` | ecsc/ecsc2025-gameserver/controlserver/timer.py:84-110 | a command that rewrites the open tick's record leaves it sound exactly when the end it writes is start plus tick time |
| `TimerRecords.HalfHeardRecord` | ecsc/ecsc2025-gameserver/controlserver/timer.py:352-359 | one step of the master's own between the two messages of a slave's tick-time command writes a skewed record exactly when it rewrites the record without setting a tick time |
| `TimerRecords.HalfHeardFields` | ecsc/ecsc2025-gameserver/controlserver/timer.py:352-359 | after both messages the fields are skewed, for the next rewriting to write down, exactly when the step between opened a tick or set a third tick time |
| `TimerRecords.HeardTickTimeThenHalt` | ecsc/ecsc2025-gameserver/controlserver/timer.py:157-176 | the same when the shortened tick halts the game and it is started again later: in order exactly when that start is not before the old recorded end |
| `TimerRecords.CommandRestoresOrder` | ecsc/ecsc2025-gameserver/controlserver/timer.py:321-340 | any command that makes the master rewrite the record before the shortened tick ends restores the order |
| `TimerRecords.LateStateOverlaps` | ecsc/ecsc2025-gameserver/controlserver/timer.py:157-255 | an open tick of a game that goes on, and a state other than RUNNING heard: the next check opens the next tick at once, and the records are in order exactly when the recorded end of the open tick has come |
| `TimerRecords.LateStateIsPossible` | ecsc/ecsc2025-gameserver/controlserver/timer.py:157-255 | a run in which that happens and the records overlap |
| `TimerStopAfter.OnlyRestartsReopen` | ecsc/ecsc2025-gameserver/controlserver/timer.py:247-273 | after the game halted exactly a start command or a due schedule starts tick k + 1 in one step |
| `TimerStopAfter.StepWhileStopping` | ecsc/ecsc2025-gameserver/controlserver/timer.py:224-299 | after tick k was started, a step leaves the game stopping at k if nobody restarts, and while k is the current tick only then |
| `TimerStopAfter.StopsWhenTickEnds` | ecsc/ecsc2025-gameserver/controlserver/timer.py:224-299 | the same without outdated states and tick numbers: once the listeners saw the end of tick k the timer is not RUNNING |
| `TimerStopAfter.StepKeepsTicksKnown` | ecsc/ecsc2025-gameserver/controlserver/timer.py:157-340 | every tick number the master holds or has published is 0 or that of a tick that was started |
| `TimerStopAfter.LateStartReopens` | ecsc/ecsc2025-gameserver/controlserver/timer.py:157-299 | while the last tick is open, a desired state the master hears makes the check at its end start another tick exactly when it is RUNNING, the master's own old one included |
| `TimerStopAfter.LateStartIsPossible` | ecsc/ecsc2025-gameserver/controlserver/timer.py:157-299 | a run in which the master's own start, heard late, undoes the stop |
| `TimerCommands.LastTickEndsGame` | ecsc/ecsc2025-gameserver/controlserver/timer.py:293-297 | the tick set to be the last is played to its end, the game is then stopped, and the setting is gone |
| `TimerCommands.HaltTakesEffect` | ecsc/ecsc2025-gameserver/controlserver/timer.py:239-245 | a suspend or stop lets the tick finish, halts in the state asked for, and decides whether the next start is announced as the start of the game |
| `TimerCommands.CheckLeavesTickOpen` | ecsc/ecsc2025-gameserver/controlserver/timer.py:230-237 | after a check the open tick is not over yet |
| `TimerCommands.TicksDoNotDrift` | ecsc/ecsc2025-gameserver/controlserver/timer.py:236-237 | while checks come at most a second after each tick end, tick starts are exactly one tick time apart |
| `TimerCommands.ScheduleMet` | ecsc/ecsc2025-gameserver/controlserver/timer.py:247-255 | five seconds are the largest distance between checks with which no schedule is ever missed |
| `TimerCommands.SlaveCommandReachesMaster` | ecsc/ecsc2025-gameserver/controlserver/timer.py:352-402 | a command at a slave in step with the master reaches the master as its own command would, a start at its next check |
| `TimerCommands.ScheduleExact` | ecsc/ecsc2025-gameserver/controlserver/timer.py:247-255 | checks at any times open a scheduled tick exactly when one of them is at the scheduled second or the four after it, and otherwise do nothing |
| `TimerSync.StepSyncs` | ecsc/ecsc2025-gameserver/controlserver/timer.py:258-333 | the master's steps leave the store telling all its fields, except exactly a start command that takes back a pending halt |
| `TimerSync.PromptEchoHarmless` | ecsc/ecsc2025-gameserver/controlserver/timer.py:157-176 | the master's own message heard at once changes nothing |
| `TimerSync.ActPublishes` | ecsc/ecsc2025-gameserver/controlserver/timer.py:224-340 | a step of the master's own writes all its fields or changes none, except that taking back a halt changes the desired state and writes nothing |
| `TimerReplica.InitFaithful` | ecsc/ecsc2025-gameserver/controlserver/timer.py:116-155 | a timer created from the store takes over every stored value exactly when state and desired state are both stored, or the state is missing and nothing stored differs from the initial values |
| `TimerReplica.EarlyCommandIsLost` | ecsc/ecsc2025-gameserver/controlserver/timer.py:127-136 | two stores for which it does not |
| `TimerReplica.CommandWritesItsChanges` | ecsc/ecsc2025-gameserver/controlserver/timer.py:352-402 | every field a slave's command changes is among the keys it writes |
| `TimerReplica.ConvergesExceptMissed` | ecsc/ecsc2025-gameserver/controlserver/timer.py:116-196 | a replica started from the store, with writes between its reads and before it subscribed: a field holds the stored value exactly when its key was written since, or the value read was the last one written before |
| `TimerReplica.GapLosesUpdate` | ecsc/ecsc2025-gameserver/controlserver/timer.py:437-437 | a command lost in the gap |
| `TimerReplica.ReplicasAgree` | ecsc/ecsc2025-gameserver/controlserver/timer.py:144-176 | two replicas that hold the same store are equal |
| `TimerReplica.UnmentionedKeepsField` | ecsc/ecsc2025-gameserver/controlserver/timer.py:144-176 | a key nobody writes after the subscription keeps the value the replica has for it, own commands included |
| `TimerReplica.StepSettles` | ecsc/ecsc2025-gameserver/controlserver/timer.py:144-402 | every write, command, read of a value to be written, and message heard leaves a field either equal to the stored value or with a write still to be heard or made |
| `TimerReplica.CommandSets` | ecsc/ecsc2025-gameserver/controlserver/timer.py:352-402 | what each command of a slave sets |
| `TimerReplica.CommandWritesExactly` | ecsc/ecsc2025-gameserver/controlserver/timer.py:352-402 | exactly which keys each command writes: state commands the desired state alone, settings nothing if unchanged and else their field, a tick time the end of a started tick before it |
| `TimerGame.SlavesKeepToTheirKeys` | ecsc/ecsc2025-gameserver/controlserver/timer.py:352-402 | in every run a slave writes only keys the master takes from slaves, never state, tick number or tick start |
| `Frames.ExtractUndoesFrame` | ecsc/ecsc2025-service-firewall/meta/pcap-extract.py:47-53 | extracting undoes framing, whatever follows |
| `Frames.FrameUndoesExtract` | ecsc/ecsc2025-service-firewall/meta/pcap-extract.py:47-53 | framing what was extracted gives the bytes back |
| `Frames.DrainConserves` | ecsc/ecsc2025-service-firewall/meta/pcap-extract.py:77-86 | a drained buffer loses no byte and keeps no complete frame |
| `Frames.DrainUndoesEncode` | ecsc/ecsc2025-service-firewall/meta/pcap-extract.py:77-86 | there is one way to cut bytes into packets and a remainder without a complete frame |
| `Frames.DrainAppend` | ecsc/ecsc2025-service-firewall/meta/pcap-extract.py:77-86 | draining early and continuing later is draining at once |
| `Frames.LengthIsBigEndian` | ecsc/ecsc2025-service-firewall/meta/pcap-extract.py:47-53 | two bytes, high before low, are the length of the packet behind them; with fewer bytes there is no packet yet |
| `StreamRuns.ProcessEarly` | ecsc/ecsc2025-service-firewall/meta/pcap-extract.py:55-86 | processing before a chunk arrives changes neither the final fields nor the packets of a direction |
| `StreamRuns.SameBytesSameResult` | ecsc/ecsc2025-service-firewall/meta/pcap-extract.py:55-115 | two ways of cutting and interleaving the same bytes agree |
| `StreamRuns.LoginIsNameThenPassword` | ecsc/ecsc2025-service-firewall/meta/pcap-extract.py:56-68 | length byte and name, length byte and password; with fewer bytes there is no login yet |
| `StreamRuns.NothingKnownBefore` | ecsc/ecsc2025-service-firewall/meta/pcap-extract.py:34-44 | no names before the login is complete, zero addresses and no packets before the addresses are there |
| `StreamRuns.OutboundFirst` | ecsc/ecsc2025-service-firewall/meta/pcap-extract.py:76-86 | within one call no inbound packet comes before an outbound one |
| `PcapExtract.ConnectionIsRun` | ecsc/ecsc2025-service-firewall/meta/pcap-extract.py:105-147 | an open connection is a run of its payloads, outbound being the side that sent the first one; written are one announcement of its client and then its packets that are not empty, in order |
| `PcapConversations.SidesAreEndpoints` | ecsc/ecsc2025-service-firewall/meta/pcap-extract.py:105-114 | the bytes sent by the initiator are the outbound ones, those of anyone else the inbound ones |
| `PcapConversations.InitiatorSentFirst` | ecsc/ecsc2025-service-firewall/meta/pcap-extract.py:105-114 | the initiator is who sent the first payload |
| `PcapConversations.CloseReadsPayload` | ecsc/ecsc2025-service-firewall/meta/pcap-extract.py:105-152 | a closing segment is read like any other, and the connection is gone afterwards |
| `PcapConversations.ClosedStartsAfresh` | ecsc/ecsc2025-service-firewall/meta/pcap-extract.py:149-152 | what comes after a close starts afresh |
| `PcapConversations.TypeOfPacket` | ecsc/ecsc2025-service-firewall/meta/pcap-extract.py:119-122 | first bytes 0x40 to 0x4f give 0x0800, 0x60 to 0x6f 0x86dd, all others 0xffff |
| `FirewallRules.Chain.Append` | ecsc/ecsc2025-gameserver/vpn/manage-iptables.py:53-55 | -A unless -C finds the rule |
| `FirewallRules.Chain.Prepend` | ecsc/ecsc2025-gameserver/vpn/manage-iptables.py:58-60 | -I at the front unless -C finds the rule |
| `FirewallRules.Chain.RemoveAll` | ecsc/ecsc2025-gameserver/vpn/manage-iptables.py:63-68 | the -D loop removes every copy of the rule and keeps the order of the rest |
| `IpTables.IpTablesManager.InitFirewall` | ecsc/ecsc2025-gameserver/vpn/manage-iptables.py:88-95 | the fields as given and the chain rebuilt from them |
| `IpTables.IpTablesManager.UpdateState` | ecsc/ecsc2025-gameserver/vpn/manage-iptables.py:98-104 | the new state and the chain rebuilt for it |
| `IpTables.IpTablesManager.RewriteChain` | ecsc/ecsc2025-gameserver/vpn/manage-iptables.py:106-132 | the chain is what rebuilding gives for some iteration orders of the two sets |
| `IpTables.IpTablesManager.WriteBase` | ecsc/ecsc2025-gameserver/vpn/manage-iptables.py:108-128 | flush, then the rules of the state |
| `IpTables.IpTablesManager.BanAll` | ecsc/ecsc2025-gameserver/vpn/manage-iptables.py:129-130 | each banned team once, in some order |
| `IpTables.IpTablesManager.AllowAll` | ecsc/ecsc2025-gameserver/vpn/manage-iptables.py:131-132 | each allowed team once, in some order |
| `IpTables.IpTablesManager.InsertNoVulnboxRules` | ecsc/ecsc2025-gameserver/vpn/manage-iptables.py:134-140 | both rules for each team from 1 to max id + 1 |
| `IpTables.IpTablesManager.BanTeam` | ecsc/ecsc2025-gameserver/vpn/manage-iptables.py:142-145 | set and chain after ban_team |
| `IpTables.IpTablesManager.UnbanTeam` | ecsc/ecsc2025-gameserver/vpn/manage-iptables.py:221-224 | set and chain after unban_team |
| `IpTables.IpTablesManager.AddNetworkTeam` | ecsc/ecsc2025-gameserver/vpn/manage-iptables.py:299-307 | set and chain after add_network_team |
| `IpTables.IpTablesManager.RemoveNetworkTeam` | ecsc/ecsc2025-gameserver/vpn/manage-iptables.py:341-346 | set and chain after remove_network_team |
| `IpTables.IpTablesManager.HandleMessage` | ecsc/ecsc2025-gameserver/vpn/manage-iptables.py:441-456 | one item of the message loop: the new state, banned and allowed, and the shape carried over to them |
| `IpTables.IpTablesManager.ManageIptables` | ecsc/ecsc2025-gameserver/vpn/manage-iptables.py:417-456 | after any list of messages state, banned and allowed are what the last message about each says, and the chain has their shape for the largest team id that came with the last state message |
| `CTFTimers.CTFTimer.CheckTime` | ecsc/ecsc2025-gameserver/controlserver/timer.py:224-255 | fields, store, channel, records and listener events after check_time |
| `CTFTimers.CTFTimer.StartCtf` | ecsc/ecsc2025-gameserver/controlserver/timer.py:258-273 | the same for start_ctf |
| `CTFTimers.CTFTimer.SuspendCtfAfterTick` | ecsc/ecsc2025-gameserver/controlserver/timer.py:276-282 | the same for suspend_ctf_after_tick |
| `CTFTimers.CTFTimer.StopCtfAfterTick` | ecsc/ecsc2025-gameserver/controlserver/timer.py:285-291 | the same for stop_ctf_after_tick |
| `CTFTimers.CTFTimer.SetTickTime` | ecsc/ecsc2025-gameserver/controlserver/timer.py:84-90 | the same for the tick_time setter |
| `CTFTimers.CTFTimer.SetStopAfterTick` | ecsc/ecsc2025-gameserver/controlserver/timer.py:96-100 | the same for the stop_after_tick setter |
| `CTFTimers.CTFTimer.SetStartAt` | ecsc/ecsc2025-gameserver/controlserver/timer.py:106-110 | the same for the start_at setter |
| `CTFTimers.CTFTimer.OnStartTick` | ecsc/ecsc2025-gameserver/controlserver/timer.py:293-299 | the last tick arms the stop and the listeners hear of the tick |
| `CTFTimers.CTFTimer.OnUpdateTimes` | ecsc/ecsc2025-gameserver/controlserver/timer.py:321-333 | eight writes in order, the record of an open tick, the listeners |
| `CTFTimerSlaves.CTFTimerSlave.InitFromRedis` | ecsc/ecsc2025-gameserver/controlserver/timer.py:116-155 | the fields read from the store, or the exception |
| `CTFTimerSlaves.CTFTimerSlave.Listen` | ecsc/ecsc2025-gameserver/controlserver/timer.py:157-176 | one message of the listener |
| `CTFTimerSlaves.CTFTimerSlave.SetTickTime` | ecsc/ecsc2025-gameserver/controlserver/timer.py:352-359 | fields and writes of the slave's tick_time setter |
| `CTFTimerSlaves.CTFTimerSlave.SetStopAfterTick` | ecsc/ecsc2025-gameserver/controlserver/timer.py:365-369 | the same for stop_after_tick |
| `CTFTimerSlaves.CTFTimerSlave.SetStartAt` | ecsc/ecsc2025-gameserver/controlserver/timer.py:375-379 | the same for start_at |
| `CTFTimerSlaves.CTFTimerSlave.StartCtf` | ecsc/ecsc2025-gameserver/controlserver/timer.py:382-388 | the same for start_ctf |
| `CTFTimerSlaves.CTFTimerSlave.SuspendCtfAfterTick` | ecsc/ecsc2025-gameserver/controlserver/timer.py:391-397 | the same for suspend_ctf_after_tick |
| `CTFTimerSlaves.CTFTimerSlave.StopCtfAfterTick` | ecsc/ecsc2025-gameserver/controlserver/timer.py:400-402 | the same for stop_ctf_after_tick |
| `StreamObject.Stream.Receive` | ecsc/ecsc2025-service-firewall/meta/pcap-extract.py:109-112 | a payload goes to the buffer of its direction |
| `StreamObject.Stream.Process` | ecsc/ecsc2025-service-firewall/meta/pcap-extract.py:55-86 | process ends, and leaves the fields and yields the packets its specification says |
| `PcapExtract.Step` | ecsc/ecsc2025-service-firewall/meta/pcap-extract.py:105-152 | one segment of the capture loop, on live stream objects |
| `PcapExtract.Extract` | ecsc/ecsc2025-service-firewall/meta/pcap-extract.py:88-152 | the capture loop emits what the specification of the capture says |
| `PcapExtract.WritePackets` | ecsc/ecsc2025-service-firewall/meta/pcap-extract.py:115-147 | empty packets are dropped, and the announcement precedes the first other packet of a connection |

## Left out

- Redis, iptables, threads and packet capture as such: a map with a message log, a list of rules, interleaved
  steps and byte sequences stand for them; the lexical form of numbers in Redis is not modelled.
- Parsing of dotted addresses, YAML and environment: octets arrive as integers, and team names as integers.
- The other address families of a team (gateway, testbox, VPN peers): the same formula as the network range.
- An empty team table: the database maximum is then None and the vulnbox rules raise an exception.
- A team set changed while Python iterates over it raises an exception; the model has no step inside a loop.
- Messages published between reading the Redis sets and subscribing at the start of the firewall process: the
  model starts from the sets the manager was given.
- The condition under which the watcher rewrites (a changed team count): it may rewrite at any moment, which
  includes the moments the source picks.
- Commands that reach the master while check_time is between two statements.
- The order in which the channel delivers the master's own messages: an `Echo` step may bring any message ever
  published, any number of times, which includes the order in which they were sent. `TimerGame` keeps the order.
- `PcapExtract.Extract`: Ethernet addresses, the DNS form of the announcement and the warnings are not modelled.
- `StreamObject.Stream.Process`: the generator is run to its end before its packets are written.
- Scoring, flag codecs, simulator, web endpoints, deployment and the services themselves: separate components,
  and mostly easier ones.
