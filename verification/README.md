# A Dafny model of the mDNS responder and the LED sequencer

Two parts of the firmware are modelled and proved about: the mDNS / DNS-SD responder that is
vendored under `espressif__mdns_1.9.1_29e47564` (RFC 6762, RFC 6763), and the project's own LED
pattern sequencer. `dafny verify dfyconfig.toml` checks everything.

## How it is laid out

| modules | subject |
|---|---|
| `Bytes`, `Lists`, `Wire` | octets, C strings, `strcasecmp`; cutting and joining lists; sizes and record types |
| `NameReader`, `NameWriter`, `NameRoundTrip` | DNS names: reading with pointers, writing with compression, and both together |
| `Txt` | TXT data: encoder, two-pass parser |
| `Framing`, `Records`, `Dispatch` | record builders, length fields patched after the fact, the whole packet |
| `ReadBack`, `Targets`, `OnTheWire` | what a receiver reads in that packet: names of questions and records, names inside data, and what each record says |
| `Answers`, `AnswerRules`, `ReplyContents`, `Received` | which records a reply holds, which it ought to hold, and what known answers strike on receipt |
| `TxQueue` | the sorted list of packets, as a value and as linked nodes |
| `Responder` | the responder as a machine of steps: links, services, queue, actions, trace |
| `Protocol` | timer, action queue and service task |
| `ProbeSafety`, `ServiceRemoval`, `ResponderRuns` | what every step keeps, and what follows for whole runs |
| `ProbeQuestions`, `Announcing`, `StepRules` | what probes ask, what announcements hold and how often they leave, and what every other step does |
| `QueueRefusals` | what refused posts do |
| `ResponderTask` | the responder's functions working in place, proved equal to the steps |
| `Collision`, `Mangle` | tie-breaks and new names |
| `PtrSearch` | results of a PTR search |
| `LedSequencer`, `LedRuns` | the LED component, and its runs |

Code that works in place is a class or a method with the loops of the source, proved against a
function on values; the properties are lemmas about these functions.

A link is a pair of interface and IP protocol. A service, a host and a packet are objects in the
source; here they are named by identities that are never used again. Steps that hold the
responder's lock are atomic and take place at one instant; between any two of them, also between
taking an action from the queue and handling it, any other step may come. What is sent is
recorded in a trace.

Where the code does not do what one would expect of it, the code is kept, and for each case there are
a lemma that says exactly when it does and one with a failing input:

| case | exactly when it is right | failing input |
|---|---|---|
| a compressed name points at itself, at octets not written yet, or at a name with a dropped label | `NameRoundTrip.CompressionIsExact` | `NameRoundTrip.HostCalledLocal`, `NameRoundTrip.SubtypeTakenForInstance` |
| a label of 64 octets is written but cannot be read | `NameRoundTrip.LabelLengthIsExact` | `NameRoundTrip.LongLabelUnreadable` |
| a name matched with octets that jump into the header changes when the counts are filled in | `ReadBack.HeaderIsNotRead` | `ReadBack.CountChangesTheName` |
| the return value of the name writer hides that part of a name was refused | `Framing.ReturnValueTells` | `Framing.OverflowIsHidden` |
| TXT data with a key without value in front of another entry are lost on parsing | `Txt.TxtRoundTrip` | `Txt.BareEntryLosesAll` |
| a known answer for a service that bears the default instance name is not honoured | `AnswerRules.KnownAnswersHonoured` | `AnswerRules.NamelessIsAnswered`, and `AnswerRules.HalfIsAnswered` at precisely half of the lifetime |
| a known PTR record of a service without instance name, however old, silences the question and with it all services of the type | `Received.OneIsPassedOn` | `Received.StaleAnswerSilences`, `Received.OtherServiceSilenced` |
| the walk over delegated hosts for a question of type ANY leaves out the first of them | `AnswerRules.AllHostsAnswered` | `AnswerRules.OnlyHostIsMissed` |
| a post accepted behind a refused one in the same run of the timer is dropped later | `ResponderRuns.TimerExact`, `QueueRefusals.RefusalsLast` | `QueueRefusals.OvertakerIsDropped` |
| a link that is probed before it is ready and then taken down keeps its array of services, and the next start copies beyond its allocation | `ResponderRuns.DisableExact` | `ResponderRuns.ServicesLeftBehind` |
| a link that is not ready keeps a removed service in its array | `ServiceRemoval.RemovalLeavesNothing` | `ResponderRuns.RemovedButListed` |
| a removed service takes the question about another one of its type out of a probe | `ProbeQuestions.AskingExact` | `ProbeQuestions.WrongQuestionDropped` |
| the own SRV record of a service added for the own host in other letter case is taken for a conflict | `Collision.OwnRecordHeard` | `Collision.LosesToItself` |
| a TXT record of a single entry without key and value conflicts with itself | `Collision.BareConflictsWithItself` | the same |

A dropped post is made up for by the next run of the timer (`QueueRefusals.NextRunPostsBoth`), unless the
link of the overtaken packet is taken down in between: then no packet leaves the queue until some call
clears it (`QueueRefusals.OvertakerJams`, `QueueRefusals.JammedForGood`).

## Model

| member | source | states |
|---|---|---|
| `NameReader.ReadFqdn` | firmware/yaml/.esphome/.espressif/service_d92d8f1e/espressif__mdns_1.9.1_29e47564/mdns.c:452-503 | Reading ends on every buffer because each pointer must lead to before the segment it is in; success, the position behind the name and the slots filled are those of the independent two-step definition: expand the name to a list of labels, then sort the labels into slots. |
| `NameReader.ReadLabel` | firmware/yaml/.esphome/.espressif/service_d92d8f1e/espressif__mdns_1.9.1_29e47564/mdns.c:461-473 | Exactly the labels of at most 63 octets that end inside the packet are accepted, and the octets read are those of the packet. |
| `NameReader.ExpandFrame` | firmware/yaml/.esphome/.espressif/service_d92d8f1e/espressif__mdns_1.9.1_29e47564/mdns.c:452-503 | A reading that stays below some offset gives the same result in every buffer that agrees below it, so nothing appended later can change an earlier name. |
| `NameReader.ExpandItemsOk` | firmware/yaml/.esphome/.espressif/service_d92d8f1e/espressif__mdns_1.9.1_29e47564/mdns.c:461-473 | Every label met is at most 63 octets, which the slots have room for. |
| `NameReader.Name.Store` | firmware/yaml/.esphome/.espressif/service_d92d8f1e/espressif__mdns_1.9.1_29e47564/mdns.c:474-490 | Storing one label in place is the value-level rule: join to the host, mark a subtype, or take the next slot. |
| `NameReader.ParseFqdn` | firmware/yaml/.esphome/.espressif/service_d92d8f1e/espressif__mdns_1.9.1_29e47564/mdns.c:3411-3440 | The slots a caller gets are the sorted labels moved to their final places; failure leaves no position. |
| `NameReader.SortedName` | firmware/yaml/.esphome/.espressif/service_d92d8f1e/espressif__mdns_1.9.1_29e47564/mdns.c:452-503 | For the names mDNS uses the labels in front of the first service type, protocol or domain come out as host or instance, joined by dots, and the others as type, protocol and domain, wherever pointers cut the name; such a name is refused as invalid exactly when all four slots are taken and a pointer to the empty name follows the last label. |
| `NameWriter.FindMatch` | firmware/yaml/.esphome/.espressif/service_d92d8f1e/espressif__mdns_1.9.1_29e47564/mdns.c:757-793 | The search takes the first earlier offset whose trial read spells the wanted labels, and passes over none. |
| `NameWriter.PutFqdn` | firmware/yaml/.esphome/.espressif/service_d92d8f1e/espressif__mdns_1.9.1_29e47564/mdns.c:750-811 | The writer that works on the packet array, with its loops over candidate offsets, leaves the octets and the index of the value-level writer. |
| `NameWriter.Search` | firmware/yaml/.esphome/.espressif/service_d92d8f1e/espressif__mdns_1.9.1_29e47564/mdns.c:757-793 | The loop over the occurrences of the length octet finds the same offset as trying every offset. |
| `NameWriter.Try` | firmware/yaml/.esphome/.espressif/service_d92d8f1e/espressif__mdns_1.9.1_29e47564/mdns.c:762-790 | A candidate is taken exactly when the label, the trial read, the number of parts and all slots agree. |
| `NameWriter.PutString` | firmware/yaml/.esphome/.espressif/service_d92d8f1e/espressif__mdns_1.9.1_29e47564/mdns.c:642-652 | A label goes in whole behind its length octet, or nothing is written when it would reach the end of the packet; the octet returned is zero also for a label of 255 octets, which is written. |
| `NameRoundTrip.CompressionRoundTrip` | firmware/yaml/.esphome/.espressif/service_d92d8f1e/espressif__mdns_1.9.1_29e47564/mdns.c:750-811 | Appending a name of labels of 1 to 63 octets without NUL writes it whole where it fits uncompressed; and if the match taken, if any, is settled (it starts before the name being written, its trial read used only octets already written, and no label of it was dropped or cut), reading it back gives the same labels up to ASCII case, ends where the writer stopped, and gives the same in every buffer that is written on from there (section 4.1.4 of RFC 1035). |
| `NameRoundTrip.CompressionIsExact` | firmware/yaml/.esphome/.espressif/service_d92d8f1e/espressif__mdns_1.9.1_29e47564/mdns.c:750-811 | For ASCII labels behind an octet below 0xC0 the name reads back if and only if the match taken, if any, is settled. |
| `NameRoundTrip.SettledFrom` | firmware/yaml/.esphome/.espressif/service_d92d8f1e/espressif__mdns_1.9.1_29e47564/mdns.c:750-811 | Every tail of a name whose match is settled reads back from where it was written, by recursion over its labels. |
| `NameRoundTrip.ReadFrom` | firmware/yaml/.esphome/.espressif/service_d92d8f1e/espressif__mdns_1.9.1_29e47564/mdns.c:750-811 | Every tail that reads back took a settled match, under the hypotheses of exactness. |
| `NameRoundTrip.SlotsAreLabels` | firmware/yaml/.esphome/.espressif/service_d92d8f1e/espressif__mdns_1.9.1_29e47564/mdns.c:457-490 | A read never fills more slots than the name has labels; when it fills as many, the slots are the labels in order, each cut at a NUL. |
| `NameRoundTrip.EarlierNamesKept` | firmware/yaml/.esphome/.espressif/service_d92d8f1e/espressif__mdns_1.9.1_29e47564/mdns.c:750-811 | Every name readable below the index reads the same after another one has been appended. |
| `NameRoundTrip.PointerReads` | firmware/yaml/.esphome/.espressif/service_d92d8f1e/espressif__mdns_1.9.1_29e47564/mdns.c:807-811 | A name that ends in a pointer to a match whose trial read used written octets only reads as wanted if and only if the match is settled, wherever the name stands. |
| `NameRoundTrip.PointerAstray` | firmware/yaml/.esphome/.espressif/service_d92d8f1e/espressif__mdns_1.9.1_29e47564/mdns.c:807-811 | A pointer to a match whose trial read ran into octets not yet written never reads as the name wanted, for ASCII labels behind an octet below 0xC0. |
| `NameRoundTrip.PointerInThePath` | firmware/yaml/.esphome/.espressif/service_d92d8f1e/espressif__mdns_1.9.1_29e47564/mdns.c:452-503 | A pointer whose target ran into the place where the pointer was then put fails to read, or has its own octet swallowed into a label. |
| `NameRoundTrip.AcceptedSpells` | firmware/yaml/.esphome/.espressif/service_d92d8f1e/espressif__mdns_1.9.1_29e47564/mdns.c:784-794 | A match the slots agree with spells the wanted labels exactly when it has as many of them and none holds a NUL. |
| `NameRoundTrip.HostCalledLocal` | firmware/yaml/.esphome/.espressif/service_d92d8f1e/espressif__mdns_1.9.1_29e47564/mdns.c:750-811 | A case where the round trip fails: a host named like the domain, first in a zeroed packet, is matched with itself and cannot be read. |
| `NameRoundTrip.LongLabelUnreadable` | firmware/yaml/.esphome/.espressif/service_d92d8f1e/espressif__mdns_1.9.1_29e47564/mdns.c:642-652 | A case where the round trip fails: a name any label of which has 64 octets or more, wherever it stands, is written but no reader accepts it. |
| `NameRoundTrip.LabelLengthIsExact` | firmware/yaml/.esphome/.espressif/service_d92d8f1e/espressif__mdns_1.9.1_29e47564/mdns.c:642-652 | For labels of 1 to 191 octets without NUL, behind a settled match or none, the name reads back if and only if none of them is longer than 63. |
| `NameRoundTrip.MatchIsShort` | firmware/yaml/.esphome/.espressif/service_d92d8f1e/espressif__mdns_1.9.1_29e47564/mdns.c:457-490 | No name with a label longer than 63 octets is ever matched: every slot behind the host holds a single label, and a label read is never longer than that. |
| `NameRoundTrip.SubtypeTakenForInstance` | firmware/yaml/.esphome/.espressif/service_d92d8f1e/espressif__mdns_1.9.1_29e47564/mdns.c:2401-2446 | A case where the round trip fails: in the goodbye of subtype p of a service instance called p, the instance name becomes a pointer to the subtype name in front, since the subtype marker fills no slot, and reads as that. |
| `Txt.ItemsCountGet` | firmware/yaml/.esphome/.espressif/service_d92d8f1e/espressif__mdns_1.9.1_29e47564/mdns.c:3515-3535 | The counting loop returns the number of items of the data, or -1 for data that end inside one. |
| `Txt.NameGetLen` | firmware/yaml/.esphome/.espressif/service_d92d8f1e/espressif__mdns_1.9.1_29e47564/mdns.c:3542-3556 | The key ends at the first equals sign, or spans the item; an empty key is an error. |
| `Txt.ResultTxtCreate` | firmware/yaml/.esphome/.espressif/service_d92d8f1e/espressif__mdns_1.9.1_29e47564/mdns.c:3558-3649 | The parser with its two passes over the array returns the items of the value-level definition, or none when the passes disagree. |
| `Txt.CountsEntries` | firmware/yaml/.esphome/.espressif/service_d92d8f1e/espressif__mdns_1.9.1_29e47564/mdns.c:3515-3535 | The counting pass finds every entry that was encoded, whatever stands in front. |
| `Txt.FillsEntries` | firmware/yaml/.esphome/.espressif/service_d92d8f1e/espressif__mdns_1.9.1_29e47564/mdns.c:3575-3636 | The filling pass returns the encoded entries in order when only the last may lack a value. |
| `Txt.OutOfStep` | firmware/yaml/.esphome/.espressif/service_d92d8f1e/espressif__mdns_1.9.1_29e47564/mdns.c:3575-3636 | A filling pass that starts off the boundary of an entry never returns the entries that remain. |
| `Txt.BareInFront` | firmware/yaml/.esphome/.espressif/service_d92d8f1e/espressif__mdns_1.9.1_29e47564/mdns.c:3575-3636 | One entry without value in front of another makes the filling pass miss the list, whatever the entries are. |
| `Txt.TxtRoundTrip` | firmware/yaml/.esphome/.espressif/service_d92d8f1e/espressif__mdns_1.9.1_29e47564/mdns.c:3515-3649 | For entries with non-empty keys free of equals signs and of at most 255 octets, the count is right, and encoding then parsing returns the keys and values in order if and only if no entry but the last lacks a value (section 6 of RFC 6763). |
| `Txt.BareEntryLosesAll` | firmware/yaml/.esphome/.espressif/service_d92d8f1e/espressif__mdns_1.9.1_29e47564/mdns.c:3575-3649 | The failing case made concrete: of two entries, the first without value, nothing is returned. |
| `Framing.NameIsFramed` | firmware/yaml/.esphome/.espressif/service_d92d8f1e/espressif__mdns_1.9.1_29e47564/mdns.c:750-811 | A name none of which was refused is skipped exactly by a reader that does not follow pointers, and takes no more room than uncompressed. |
| `Framing.NameFits` | firmware/yaml/.esphome/.espressif/service_d92d8f1e/espressif__mdns_1.9.1_29e47564/mdns.c:750-811 | A name that fits uncompressed is never refused. |
| `Framing.WholeWhenItFits` | firmware/yaml/.esphome/.espressif/service_d92d8f1e/espressif__mdns_1.9.1_29e47564/mdns.c:750-811 | A name is written whole exactly when the octets it needs, as the writer compresses it, are there. |
| `Framing.ReturnValueTells` | firmware/yaml/.esphome/.espressif/service_d92d8f1e/espressif__mdns_1.9.1_29e47564/mdns.c:798-806 | A positive return value means that the name is whole, and zero that it is not, except exactly when the first part fits and the whole does not. |
| `Framing.OverflowIsHidden` | firmware/yaml/.esphome/.espressif/service_d92d8f1e/espressif__mdns_1.9.1_29e47564/mdns.c:798-806 | The exception made concrete, for every name not yet in the packet: its first label just fits, the rest is refused, the value returned is positive, and the walk over the packet is lost. |
| `Framing.SpelledIsFramed` | firmware/yaml/.esphome/.espressif/service_d92d8f1e/espressif__mdns_1.9.1_29e47564/mdns.c:823-1195 | A record whose length field counts its data is skipped exactly, and what stood in front of it is as it was. |
| `Framing.WalkRecordsMore` | firmware/yaml/.esphome/.espressif/service_d92d8f1e/espressif__mdns_1.9.1_29e47564/mdns.c:1490-1552 | A walk over two runs of records is the walk over the second from where the first ends. |
| `Records.PutPtrRecord` | firmware/yaml/.esphome/.espressif/service_d92d8f1e/espressif__mdns_1.9.1_29e47564/mdns.c:823-866 | The whole record is laid down, owner, class, lifetime, and an instance name whose length field counts what it takes after compression; it cannot fail while it fits uncompressed. |
| `Records.PutSubtypePtrRecord` | firmware/yaml/.esphome/.espressif/service_d92d8f1e/espressif__mdns_1.9.1_29e47564/mdns.c:873-910 | The same for the pointer from a subtype to an instance. |
| `Records.PutSdptrRecord` | firmware/yaml/.esphome/.espressif/service_d92d8f1e/espressif__mdns_1.9.1_29e47564/mdns.c:918-960 | The same for the pointer from the service enumeration name to a service type. |
| `Records.PutSrvRecord` | firmware/yaml/.esphome/.espressif/service_d92d8f1e/espressif__mdns_1.9.1_29e47564/mdns.c:1032-1098 | The same for an SRV record: priority, weight, port and target behind a length field that counts all four. |
| `Records.PutTxtRecord` | firmware/yaml/.esphome/.espressif/service_d92d8f1e/espressif__mdns_1.9.1_29e47564/mdns.c:968-1023 | The same for a TXT record: its data are the encoded entries, or a single zero octet when there are none. |
| `Records.PutTxtEntries` | firmware/yaml/.esphome/.espressif/service_d92d8f1e/espressif__mdns_1.9.1_29e47564/mdns.c:990-1010 | The entries are laid down in order and counted, and only lack of room stops them. |
| `Records.PutTxtEntry` | firmware/yaml/.esphome/.espressif/service_d92d8f1e/espressif__mdns_1.9.1_29e47564/mdns.c:665-683 | One entry is laid down whole, or not at all when it would reach the end of the packet. |
| `Records.PutARecord` | firmware/yaml/.esphome/.espressif/service_d92d8f1e/espressif__mdns_1.9.1_29e47564/mdns.c:1105-1148 | The same for an IPv4 address record. |
| `Records.PutAaaaRecord` | firmware/yaml/.esphome/.espressif/service_d92d8f1e/espressif__mdns_1.9.1_29e47564/mdns.c:1157-1195 | The same for an IPv6 address record. |
| `Dispatch.SpelledWalks` | firmware/yaml/.esphome/.espressif/service_d92d8f1e/espressif__mdns_1.9.1_29e47564/mdns.c:1490-1552 | A run of records, one behind the other, is walked from its first octet exactly to its last. |
| `Dispatch.SpelledConcat` | firmware/yaml/.esphome/.espressif/service_d92d8f1e/espressif__mdns_1.9.1_29e47564/mdns.c:1510-1545 | Two runs of records laid down one behind the other are one run. |
| `Dispatch.PutServicePtrAnswers` | firmware/yaml/.esphome/.espressif/service_d92d8f1e/espressif__mdns_1.9.1_29e47564/mdns.c:1350-1376 | A service answers with its PTR record and one per subtype, all of them counted. |
| `Dispatch.PutHostAnswer` | firmware/yaml/.esphome/.espressif/service_d92d8f1e/espressif__mdns_1.9.1_29e47564/mdns.c:1286-1311 | A delegated host answers with exactly its addresses of the asked family, in order, all of them counted. |
| `Dispatch.PutSelfV6` | firmware/yaml/.esphome/.espressif/service_d92d8f1e/espressif__mdns_1.9.1_29e47564/mdns.c:1442-1482 | The own IPv6 addresses are laid down in order; a zero address aborts the answer. |
| `Dispatch.PutAnswer` | firmware/yaml/.esphome/.espressif/service_d92d8f1e/espressif__mdns_1.9.1_29e47564/mdns.c:1378-1484 | Each kind of answer lays down exactly its records and returns their number. |
| `Dispatch.PutAnswers` | firmware/yaml/.esphome/.espressif/service_d92d8f1e/espressif__mdns_1.9.1_29e47564/mdns.c:1512-1543 | A section holds the records of its answers in order, and the count is their number modulo 256. |
| `Dispatch.PutQuestion` | firmware/yaml/.esphome/.espressif/service_d92d8f1e/espressif__mdns_1.9.1_29e47564/mdns.c:1201-1236 | A question that fits is skipped exactly and carries its type and class. |
| `Dispatch.PutQuestions` | firmware/yaml/.esphome/.espressif/service_d92d8f1e/espressif__mdns_1.9.1_29e47564/mdns.c:1499-1510 | All questions are laid down and walked exactly. |
| `Dispatch.DispatchTxPacket` | firmware/yaml/.esphome/.espressif/service_d92d8f1e/espressif__mdns_1.9.1_29e47564/mdns.c:1490-1552 | The index never leaves 12..1460. When no write was refused, the header counts are the numbers of questions and records, a walk over that many of them, each of the expected type, class and lifetime, ends exactly at the index (section 4.1 of RFC 1035), and the packet holds, in order and without a gap, every question and every record with its owner name, fixed fields and data as the builders spell them. None is refused when the packet fits uncompressed, no own IPv6 address is zero, and every SRV answer has a host. |
| `ReadBack.HeaderIsNotRead` | firmware/yaml/.esphome/.espressif/service_d92d8f1e/espressif__mdns_1.9.1_29e47564/mdns.c:1490-1552 | The counts in the header are filled in behind the names. A name written behind the header with a settled match, or none, reads back in every buffer that agrees behind the header if and only if its match is read without the header. |
| `ReadBack.CountChangesTheName` | firmware/yaml/.esphome/.espressif/service_d92d8f1e/espressif__mdns_1.9.1_29e47564/mdns.c:1510-1543 | The failing case made concrete: a host name whose length occurs nowhere in front of octets (of TXT data, say) that spell it and jump to the low octet of the answer count is matched with them; it reads back while no answer is counted, and no longer once some are. |
| `ReadBack.OwnerReadsBack` | firmware/yaml/.esphome/.espressif/service_d92d8f1e/espressif__mdns_1.9.1_29e47564/mdns.c:823-1195 | The owner name of a record laid down by a builder reads back, whatever is written behind the record or into the header, if its match is settled and read without the header. |
| `ReadBack.QuestionReadsBack` | firmware/yaml/.esphome/.espressif/service_d92d8f1e/espressif__mdns_1.9.1_29e47564/mdns.c:1201-1236 | So does the name of a question. |
| `ReadBack.OwnersReadBack` | firmware/yaml/.esphome/.espressif/service_d92d8f1e/espressif__mdns_1.9.1_29e47564/mdns.c:1510-1545 | Of a run of records laid down one behind the other, with such matches, each owner reads back in the buffer that is sent, from where the walk comes to its record. |
| `ReadBack.PacketReadsBack` | firmware/yaml/.esphome/.espressif/service_d92d8f1e/espressif__mdns_1.9.1_29e47564/mdns.c:1490-1552 | In the packet that is sent, counts filled in, every question name and every owner name of the three sections reads back from where the walk comes to it, when all of them took such matches or none. |
| `Targets.LowSkips` | firmware/yaml/.esphome/.espressif/service_d92d8f1e/espressif__mdns_1.9.1_29e47564/mdns.c:457-490 | From in front of the length field of a record no reading comes to it: type, class and lifetime hold NULs that no label without NUL spans. |
| `Targets.MatchSkips` | firmware/yaml/.esphome/.espressif/service_d92d8f1e/espressif__mdns_1.9.1_29e47564/mdns.c:757-793 | The settled match of a name inside a record is read without the length field, which is zero while the match is looked for; for an SRV record also when priority, weight and port look like labels or pointers. |
| `Targets.TargetReadsBack` | firmware/yaml/.esphome/.espressif/service_d92d8f1e/espressif__mdns_1.9.1_29e47564/mdns.c:823-1098 | So the name inside a PTR or SRV record reads back in the packet that is sent, length and counts filled in, and ends with the record, if its match, like that of an owner, is settled and read without the header. |
| `OnTheWire.SoundReads` | firmware/yaml/.esphome/.espressif/service_d92d8f1e/espressif__mdns_1.9.1_29e47564/mdns.c:823-1195 | A record laid down by a builder is read in the packet that is sent as the record that was to be laid down: owner, type, class, lifetime, data, and the name its data end in, from where a receiver comes to it by the stored lengths. |
| `OnTheWire.RecordIsDue` | firmware/yaml/.esphome/.espressif/service_d92d8f1e/espressif__mdns_1.9.1_29e47564/mdns.c:1378-1484 | Each record of an answer tells something the answer has to tell, from the fields of its service or host: which name owns it, its type and class, and which data fill it. |
| `OnTheWire.DueIsRecord` | firmware/yaml/.esphome/.espressif/service_d92d8f1e/espressif__mdns_1.9.1_29e47564/mdns.c:1378-1484 | And whatever the answer has to tell, one of its records tells. |
| `OnTheWire.CountsAre` | firmware/yaml/.esphome/.espressif/service_d92d8f1e/espressif__mdns_1.9.1_29e47564/mdns.c:1512-1543 | A section has as many records as its answers call for: one per service, one more per subtype, one per address of the asked family. |
| `OnTheWire.PacketTells` | firmware/yaml/.esphome/.espressif/service_d92d8f1e/espressif__mdns_1.9.1_29e47564/mdns.c:1490-1552 | What a receiver reads from the octets of the packet alone, under the hypotheses on names: the questions the header counts, each with its name, type and class; and in each section the records the header counts, which tell exactly what its answers have to tell about services and hosts. |
| `OnTheWire.PtrIsSent` | firmware/yaml/.esphome/.espressif/service_d92d8f1e/espressif__mdns_1.9.1_29e47564/mdns.c:823-866 | In particular a PTR answer of a service is on the wire as a record that the service type owns and that leads to the instance, with a lifetime of zero in a goodbye. |
| `OnTheWire.GoodbyeIsZero` | firmware/yaml/.esphome/.espressif/service_d92d8f1e/espressif__mdns_1.9.1_29e47564/mdns.c:823-1195 | A lifetime on the wire is zero if and only if the answer is a goodbye and no service enumeration record, which keeps its lifetime. |
| `Answers.FindService` | firmware/yaml/.esphome/.espressif/service_d92d8f1e/espressif__mdns_1.9.1_29e47564/mdns.c:422-440 | The first registered service the question means, or none. |
| `Answers.AllocHas` | firmware/yaml/.esphome/.espressif/service_d92d8f1e/espressif__mdns_1.9.1_29e47564/mdns.c:1733-1758 | After an allocation the list holds exactly what it held and the answer asked for. |
| `Answers.AllocNoTwice` | firmware/yaml/.esphome/.espressif/service_d92d8f1e/espressif__mdns_1.9.1_29e47564/mdns.c:1733-1758 | A list without two answers of one type, service and host stays so. |
| `Answers.FromServiceAdds` | firmware/yaml/.esphome/.espressif/service_d92d8f1e/espressif__mdns_1.9.1_29e47564/mdns.c:1789-1822 | One service adds its own record of the asked type to the answers and no other service record; a question for any type counts as one for PTR. |
| `Answers.FromServiceSound` | firmware/yaml/.esphome/.espressif/service_d92d8f1e/espressif__mdns_1.9.1_29e47564/mdns.c:1789-1822 | A PTR answer never comes without the SRV, TXT and address records of its service (section 12.1 of RFC 6763). |
| `Answers.AskServicesExact` | firmware/yaml/.esphome/.espressif/service_d92d8f1e/espressif__mdns_1.9.1_29e47564/mdns.c:1894-1922 | The loop over the services answers for exactly those that match the question and that no known answer suppresses (section 7.1 of RFC 6762). |
| `Answers.AskExact` | firmware/yaml/.esphome/.espressif/service_d92d8f1e/espressif__mdns_1.9.1_29e47564/mdns.c:1887-1953 | One question adds exactly the service records it wants, in each of its branches. |
| `Answers.ReplyIsExact` | firmware/yaml/.esphome/.espressif/service_d92d8f1e/espressif__mdns_1.9.1_29e47564/mdns.c:1862-2003 | For PTR, SRV, TXT and service enumeration records: a record of a service is in the reply if and only if some question wants it and, where the source looks, its test finds no known answer; no answer is there twice; every PTR answer is accompanied by SRV and TXT among the additional records and by the addresses of its host. |
| `AnswerRules.KnownAnswersHonoured` | firmware/yaml/.esphome/.espressif/service_d92d8f1e/espressif__mdns_1.9.1_29e47564/mdns.c:1899-1915 | The test of the source agrees with the rule of section 7.1 of RFC 6762 (the known record names the service, its type and protocol, and has at least half of its lifetime left) on every record not precisely at half, if and only if the service has an instance name of its own. |
| `AnswerRules.HalfIsAnswered` | firmware/yaml/.esphome/.espressif/service_d92d8f1e/espressif__mdns_1.9.1_29e47564/mdns.c:1899-1915 | A known answer at precisely half of its lifetime is not honoured. |
| `AnswerRules.ReplyFollowsTheRule` | firmware/yaml/.esphome/.espressif/service_d92d8f1e/espressif__mdns_1.9.1_29e47564/mdns.c:1862-2003 | Of a query as the parser leaves it: with instance names of their own, the services whose PTR record is in the reply are exactly those that a question left asks for and that no known answer spares by the rule. |
| `AnswerRules.NamelessIsAnswered` | firmware/yaml/.esphome/.espressif/service_d92d8f1e/espressif__mdns_1.9.1_29e47564/mdns.c:1894-1922 | A case where the rule fails: a service without instance name is answered for although the query for any record holds its PTR record at full lifetime. |
| `Received.ReceivedFollowsTheRule` | firmware/yaml/.esphome/.espressif/service_d92d8f1e/espressif__mdns_1.9.1_29e47564/mdns.c:3945-3965 | Of the query as it was received, before known PTR records strike questions: with instance names of their own, and PTR questions that ask for types, the services whose PTR record is in the reply are exactly those that a question asks for and that no known answer spares by the rule of section 7.1 of RFC 6762. |
| `Received.OneIsPassedOn` | firmware/yaml/.esphome/.espressif/service_d92d8f1e/espressif__mdns_1.9.1_29e47564/mdns.c:3449-3513 | A lone question is passed on to the reply if and only if no known PTR record, of whatever lifetime, names a service whose question it is; otherwise there is no reply. |
| `Received.StaleAnswerSilences` | firmware/yaml/.esphome/.espressif/service_d92d8f1e/espressif__mdns_1.9.1_29e47564/mdns.c:3959-3960 | A case where the rule fails: for a service without instance name there is no reply although the querier has less than half of the lifetime of its record left, or none. |
| `Received.OtherServiceSilenced` | firmware/yaml/.esphome/.espressif/service_d92d8f1e/espressif__mdns_1.9.1_29e47564/mdns.c:3463-3464 | Another one: the known record of a service without instance name also silences every other service of its type. |
| `ReplyContents.HostItemIs` | firmware/yaml/.esphome/.espressif/service_d92d8f1e/espressif__mdns_1.9.1_29e47564/mdns.c:321-335 | A host name means the responder if it is the own name up to case or missing, else the first delegated host of that name, else none. |
| `ReplyContents.HostsAreExact` | firmware/yaml/.esphome/.espressif/service_d92d8f1e/espressif__mdns_1.9.1_29e47564/mdns.c:1925-1939 | The address records of a host are in the reply if and only if a question asks for them: one for addresses about a name that means the host, or one for anything, which takes in the own host, all delegated ones but the first, and none. |
| `ReplyContents.AddressQuestion` | firmware/yaml/.esphome/.espressif/service_d92d8f1e/espressif__mdns_1.9.1_29e47564/mdns.c:1824-1833 | A question for an address under some name is always replied to, with the records of the host the name means and of no other one. |
| `ReplyContents.MatchIsByName` | firmware/yaml/.esphome/.espressif/service_d92d8f1e/espressif__mdns_1.9.1_29e47564/mdns.c:1835-1857 | A question for a service matches, up to case, exactly by its labels: they are the type, the instance name in front of the type, or one of the subtypes in front of the marker and the type; and the service has a host. |
| `ReplyContents.MeantIsByName` | firmware/yaml/.esphome/.espressif/service_d92d8f1e/espressif__mdns_1.9.1_29e47564/mdns.c:409-440 | An SRV or TXT question with an instance name means a service if and only if its labels are the instance name of the service and its type. |
| `ReplyContents.RestOfReply` | firmware/yaml/.esphome/.espressif/service_d92d8f1e/espressif__mdns_1.9.1_29e47564/mdns.c:1862-2003 | The rest of the reply: questions of one-shot queriers repeated in order and answered to the sender; no goodbyes, cache flushes on all but shared records of services and only for queriers on the service port; whether it waits is decided by the last question; additional records go along with a PTR or SRV answer of their service and its host, an SRV answer brings the addresses, and addresses of a service are answers only for a probe and the own host. |
| `Answers.OutPacket.AddFromService` | firmware/yaml/.esphome/.espressif/service_d92d8f1e/espressif__mdns_1.9.1_29e47564/mdns.c:1789-1822 | The packet under construction changes as the value-level step says, in both of its lists. |
| `Answers.OutPacket.AddServices` | firmware/yaml/.esphome/.espressif/service_d92d8f1e/espressif__mdns_1.9.1_29e47564/mdns.c:1894-1922 | The loop over services and known answers, in place, is the exact one. |
| `Answers.OutPacket.AddHostList` | firmware/yaml/.esphome/.espressif/service_d92d8f1e/espressif__mdns_1.9.1_29e47564/mdns.c:2053-2069 | The walk over the delegated hosts, in place, is the value-level one. |
| `AnswerRules.AllocHostsHas` | firmware/yaml/.esphome/.espressif/service_d92d8f1e/espressif__mdns_1.9.1_29e47564/mdns.c:2053-2069 | The walk, which steps on before it appends, adds exactly the hosts behind the one it starts at, and one void host at the end. |
| `AnswerRules.AllHostsAnswered` | firmware/yaml/.esphome/.espressif/service_d92d8f1e/espressif__mdns_1.9.1_29e47564/mdns.c:2053-2069 | Every delegated host is answered for if and only if there is none, the first one is in the list already, or it occurs again. |
| `AnswerRules.FirstHostMissed` | firmware/yaml/.esphome/.espressif/service_d92d8f1e/espressif__mdns_1.9.1_29e47564/mdns.c:2053-2069 | Of hosts with different names the first is left out and all others are answered for. |
| `AnswerRules.OnlyHostIsMissed` | firmware/yaml/.esphome/.espressif/service_d92d8f1e/espressif__mdns_1.9.1_29e47564/mdns.c:1944-1953 | The failing case made concrete: with one delegated host the reply to a question for anything about the own or the delegated host name, which counts as a probe, holds the own addresses and those of no host, and not those of the delegated one. |
| `Answers.OutPacket.AddForQuestion` | firmware/yaml/.esphome/.espressif/service_d92d8f1e/espressif__mdns_1.9.1_29e47564/mdns.c:1887-1953 | One turn of the loop over the questions, in place, is the value-level one. |
| `Answers.AllocAnswer` | firmware/yaml/.esphome/.espressif/service_d92d8f1e/espressif__mdns_1.9.1_29e47564/mdns.c:1733-1758 | The list walk finds a duplicate exactly when there is one. |
| `Answers.IsKnown` | firmware/yaml/.esphome/.espressif/service_d92d8f1e/espressif__mdns_1.9.1_29e47564/mdns.c:1899-1915 | A known answer is found exactly when one suppresses the service. |
| `Answers.CreateAnswerFromParsedPacket` | firmware/yaml/.esphome/.espressif/service_d92d8f1e/espressif__mdns_1.9.1_29e47564/mdns.c:1862-2003 | The method with its loops returns the reply that is proved exact, or none when nothing was counted. |
| `TxQueue.Position` | firmware/yaml/.esphome/.espressif/service_d92d8f1e/espressif__mdns_1.9.1_29e47564/mdns.c:1595-1602 | A packet goes before the first packet that is due later. |
| `TxQueue.InsertIsStable` | firmware/yaml/.esphome/.espressif/service_d92d8f1e/espressif__mdns_1.9.1_29e47564/mdns.c:1588-1606 | In a sorted list the new packet stands behind every packet due no later and before every packet due later; it is the only one added, the others keep their order, and the list stays sorted. |
| `TxQueue.ClearIsFilter` | firmware/yaml/.esphome/.espressif/service_d92d8f1e/espressif__mdns_1.9.1_29e47564/mdns.c:1627-1647 | Clearing a link removes all its packets and none other; the rest stays sorted, and the packets of every other link are the same in the same order. |
| `TxQueue.Queue.Schedule` | firmware/yaml/.esphome/.espressif/service_d92d8f1e/espressif__mdns_1.9.1_29e47564/mdns.c:1588-1606 | Relinking the nodes inserts the packet at its place: the list of packets is the value-level insertion and the links stay well formed. |
| `TxQueue.Queue.ClearLink` | firmware/yaml/.esphome/.espressif/service_d92d8f1e/espressif__mdns_1.9.1_29e47564/mdns.c:1627-1647 | Relinking in two loops, head and rest, leaves exactly the packets of the other links in their order. |
| `TxQueue.Queue.Clear` | firmware/yaml/.esphome/.espressif/service_d92d8f1e/espressif__mdns_1.9.1_29e47564/mdns.c:1611-1619 | The whole list is emptied. |
| `TxQueue.Queue.Next` | firmware/yaml/.esphome/.espressif/service_d92d8f1e/espressif__mdns_1.9.1_29e47564/mdns.c:1655-1665 | The first packet of the link, or null exactly when there is none. |
| `TxQueue.Queue.Detach` | firmware/yaml/.esphome/.espressif/service_d92d8f1e/espressif__mdns_1.9.1_29e47564/private_include/mdns_private.h:141-155 | The node given leaves the list and nothing else changes, also when it was not in the list. |
| `TxQueue.Queue.TakeHead` | firmware/yaml/.esphome/.espressif/service_d92d8f1e/espressif__mdns_1.9.1_29e47564/mdns.c:5279-5287 | A packet leaves only from the head, only if it is the one meant and flagged; its flag is cleared. |
| `Responder.MissingFrom` | firmware/yaml/.esphome/.espressif/service_d92d8f1e/espressif__mdns_1.9.1_29e47564/mdns.c:2328-2343 | The services kept for a restarted probe are exactly the requested ones that were not being probed for. |
| `ResponderRuns.InitProbeStarts` | firmware/yaml/.esphome/.espressif/service_d92d8f1e/espressif__mdns_1.9.1_29e47564/mdns.c:2316-2351 | A start changes its link alone: first probing state, the merged services, addresses asked for if either start asked, the rest as it was. |
| `Protocol.KeepTxOk` | firmware/yaml/.esphome/.espressif/service_d92d8f1e/espressif__mdns_1.9.1_29e47564/mdns.c:1627-1647 | Dropping packets keeps the protocol between timer and service task: order, flagged prefix, and pending actions equal to the flagged packets. |
| `Protocol.InsertTxOk` | firmware/yaml/.esphome/.espressif/service_d92d8f1e/espressif__mdns_1.9.1_29e47564/mdns.c:1588-1606 | Scheduling a packet that no action is on its way for keeps the protocol. |
| `Protocol.ActionFindsHead` | firmware/yaml/.esphome/.espressif/service_d92d8f1e/espressif__mdns_1.9.1_29e47564/mdns.c:5279-5287 | The action of a listed packet finds that packet at the head of the list, flagged. |
| `Protocol.HeadTxOk` | firmware/yaml/.esphome/.espressif/service_d92d8f1e/espressif__mdns_1.9.1_29e47564/mdns.c:5279-5287 | Taking the head together with its action keeps the protocol, and no other action for that packet is on its way. |
| `Protocol.RunTxOk` | firmware/yaml/.esphome/.espressif/service_d92d8f1e/espressif__mdns_1.9.1_29e47564/mdns.c:5349-5381 | A run of the timer keeps the protocol if and only if the action queue, once it has refused a post, refuses the rest of that run. |
| `ProbeSafety.ProbeIsBacked` | firmware/yaml/.esphome/.espressif/service_d92d8f1e/espressif__mdns_1.9.1_29e47564/mdns.c:2112-2161 | A probe proposes an SRV record for every service it asks about, and a record without service if addresses are probed for; its questions all ask for unicast or all do not. |
| `ProbeSafety.MergeIsUnion` | firmware/yaml/.esphome/.espressif/service_d92d8f1e/espressif__mdns_1.9.1_29e47564/mdns.c:2260-2351 | Starting a probe while probing makes the array the requested services not yet probed for, followed by the old array unchanged: as a set the union, none twice. |
| `ProbeSafety.InitProbeOk` | firmware/yaml/.esphome/.espressif/service_d92d8f1e/espressif__mdns_1.9.1_29e47564/mdns.c:2316-2351 | A start leaves its link with exactly one packet, a fresh trace and a backed probe, and the other links untouched. |
| `ProbeSafety.ExecuteSendOk` | firmware/yaml/.esphome/.espressif/service_d92d8f1e/espressif__mdns_1.9.1_29e47564/mdns.c:5279-5290 | Handling a send action keeps the invariant of every link, in every state of the link. |
| `ProbeSafety.ProbeGoesOut` | firmware/yaml/.esphome/.espressif/service_d92d8f1e/espressif__mdns_1.9.1_29e47564/mdns.c:5116-5127 | After a dispatch the link owes one probe less: same packet, 250 ms later, no unicast, proposing nothing new. |
| `ResponderRuns.TimerExact` | firmware/yaml/.esphome/.espressif/service_d92d8f1e/espressif__mdns_1.9.1_29e47564/mdns.c:5349-5381 | The timer keeps the whole invariant if and only if no post overtakes a refused one. |
| `QueueRefusals.RefusalsLast` | firmware/yaml/.esphome/.espressif/service_d92d8f1e/espressif__mdns_1.9.1_29e47564/mdns.c:5349-5381 | Of a queue with any number of free places, from which the service task takes actions between the posts, the refusals last to the end of the run if and only if nothing is taken once a post has been refused. |
| `QueueRefusals.UndisturbedIsSafe` | firmware/yaml/.esphome/.espressif/service_d92d8f1e/espressif__mdns_1.9.1_29e47564/mdns.c:5349-5381 | Without a take during the run no post overtakes another, however full the queue is. |
| `QueueRefusals.OvertakerIsDropped` | firmware/yaml/.esphome/.espressif/service_d92d8f1e/espressif__mdns_1.9.1_29e47564/mdns.c:5349-5381 | The failing case made concrete: the queue is full, the first of two due packets is refused, the service task takes one action, and the second is accepted; when the task comes to its action it drops it, and the second packet stays flagged with no action on its way. |
| `QueueRefusals.NextRunPostsBoth` | firmware/yaml/.esphome/.espressif/service_d92d8f1e/espressif__mdns_1.9.1_29e47564/mdns.c:5349-5381 | The next run of the timer that is not refused posts both packets, so this state heals. |
| `QueueRefusals.OvertakerJams` | firmware/yaml/.esphome/.espressif/service_d92d8f1e/espressif__mdns_1.9.1_29e47564/mdns.c:4376-4390 | If the link of the overtaken packet is taken down first, its overtaker is left flagged at the head of the list with no action on its way. |
| `QueueRefusals.JammedForGood` | firmware/yaml/.esphome/.espressif/service_d92d8f1e/espressif__mdns_1.9.1_29e47564/mdns.c:5236-5315 | From then on, whatever time passes, however often the timer runs, actions are handled and replies are made, the head is never sent and no packet leaves the list. |
| `ResponderRuns.ProbeAllOk` | firmware/yaml/.esphome/.espressif/service_d92d8f1e/espressif__mdns_1.9.1_29e47564/mdns.c:2494-2511 | Starting probes on all ready links one after the other keeps the invariant. |
| `ResponderRuns.ProbeAllStarts` | firmware/yaml/.esphome/.espressif/service_d92d8f1e/espressif__mdns_1.9.1_29e47564/mdns.c:2494-2511 | Every ready link starts its probe, with what it was probing for or without it, and the other links stay as they are. |
| `ResponderRuns.RestartAllOk` | firmware/yaml/.esphome/.espressif/service_d92d8f1e/espressif__mdns_1.9.1_29e47564/mdns.c:2610-2632 | Clearing the whole queue and starting over keeps the invariant, also for links that are not ready. |
| `ResponderRuns.AnnounceOk` | firmware/yaml/.esphome/.espressif/service_d92d8f1e/espressif__mdns_1.9.1_29e47564/mdns.c:2451-2489 | An announcement, which may restart a probe, extend a waiting packet or send a new one, keeps the invariant. |
| `ResponderRuns.AnswerOk` | firmware/yaml/.esphome/.espressif/service_d92d8f1e/espressif__mdns_1.9.1_29e47564/mdns.c:4299-4301 | A reply, sent or scheduled, keeps the invariant: none is made for a link that probes. |
| `ResponderRuns.EnableOk` | firmware/yaml/.esphome/.espressif/service_d92d8f1e/espressif__mdns_1.9.1_29e47564/mdns.c:4362-4371 | Bringing a link up keeps the invariant, also when it was already up or cannot be set up. |
| `ResponderRuns.DisableExact` | firmware/yaml/.esphome/.espressif/service_d92d8f1e/espressif__mdns_1.9.1_29e47564/mdns.c:4376-4390 | Taking a link down keeps the invariant if and only if the link is ready or has nothing to probe for. |
| `ResponderRuns.StepExact` | firmware/yaml/.esphome/.espressif/service_d92d8f1e/espressif__mdns_1.9.1_29e47564/mdns.c:5236-5315 | Every step there is, timer, service task, received records, interface calls for services, hosts and links, keeps the invariant if and only if it is none of the two unsafe ones. |
| `ResponderRuns.EveryRun` | firmware/yaml/.esphome/.espressif/service_d92d8f1e/espressif__mdns_1.9.1_29e47564/mdns.c:5418-5438 | The invariant holds after every run of safe steps, in every interleaving. |
| `ResponderRuns.InitialOk` | firmware/yaml/.esphome/.espressif/service_d92d8f1e/espressif__mdns_1.9.1_29e47564/mdns.c:5666-5745 | The responder as set up satisfies the invariant. |
| `ResponderRuns.FlaggedAreFirst` | firmware/yaml/.esphome/.espressif/service_d92d8f1e/espressif__mdns_1.9.1_29e47564/mdns.c:5349-5381 | In every reachable state the flagged packets are a prefix of the list, and the send actions on their way for listed packets, the one in hand included, are exactly that prefix in order. |
| `ResponderRuns.ActionIsCarriedOut` | firmware/yaml/.esphome/.espressif/service_d92d8f1e/espressif__mdns_1.9.1_29e47564/mdns.c:5279-5290 | A send action whose packet is still listed is never skipped, and its packet is overdue. |
| `ResponderRuns.OnlyProbesWhileProbing` | firmware/yaml/.esphome/.espressif/service_d92d8f1e/espressif__mdns_1.9.1_29e47564/mdns.c:5103-5158 | While a link probes it has at most one packet in the list, exactly one if it is ready; that packet is a probe, and so is everything that has left the link since its probing began. |
| `ResponderRuns.LastProbe` | firmware/yaml/.esphome/.espressif/service_d92d8f1e/espressif__mdns_1.9.1_29e47564/mdns.c:5128-5149 | The step into the first announcing state has exactly three dispatches behind it since the last restart, all of one packet, each more than 250 ms after the one before, the first at least 120 ms (1000 ms after more than five failures) after the restart and alone in asking for unicast (section 8.1 of RFC 6762). |
| `ResponderRuns.AnnouncedWasProbed` | firmware/yaml/.esphome/.espressif/service_d92d8f1e/espressif__mdns_1.9.1_29e47564/mdns.c:2196-2231 | No service is announced unless all three probes before proposed its SRV record. |
| `ResponderRuns.WaysOutOfProbing` | firmware/yaml/.esphome/.espressif/service_d92d8f1e/espressif__mdns_1.9.1_29e47564/mdns.c:5103-5158 | Over all steps a link leaves probing only by announcing after three dispatches, by losing the last service it probed for, or by being taken down. |
| `ResponderRuns.CopyFits` | firmware/yaml/.esphome/.espressif/service_d92d8f1e/espressif__mdns_1.9.1_29e47564/mdns.c:2260-2286 | In every reachable state the array of services is free of duplicates, absent outside the probing states, and a new start copies exactly as many entries as it allots. |
| `ResponderRuns.ServicesLeftBehind` | firmware/yaml/.esphome/.espressif/service_d92d8f1e/espressif__mdns_1.9.1_29e47564/mdns.c:4376-4390 | The failing case made concrete: a link that is not ready starts to probe and is taken down again; it is off, keeps its services, and the next start copies more entries than it allots. |
| `ResponderRuns.RemovedButListed` | firmware/yaml/.esphome/.espressif/service_d92d8f1e/espressif__mdns_1.9.1_29e47564/mdns.c:2787-2866 | The failing case of removal: a link that is not ready probes for a service that is then removed; it goes on to list it. |
| `ServiceRemoval.WithoutIs` | firmware/yaml/.esphome/.espressif/service_d92d8f1e/espressif__mdns_1.9.1_29e47564/mdns.c:2762-2782 | A list loses exactly the answers of the service. |
| `ServiceRemoval.WithoutConcat` | firmware/yaml/.esphome/.espressif/service_d92d8f1e/espressif__mdns_1.9.1_29e47564/mdns.c:2762-2782 | What is left keeps its order, piece by piece. |
| `ServiceRemoval.StrikeIs` | firmware/yaml/.esphome/.espressif/service_d92d8f1e/espressif__mdns_1.9.1_29e47564/mdns.c:2806-2817 | The array of probed services loses that service and no other, and stays free of duplicates. |
| `ServiceRemoval.RemoveIsStrip` | firmware/yaml/.esphome/.espressif/service_d92d8f1e/espressif__mdns_1.9.1_29e47564/mdns.c:2787-2866 | The packets detached in the walk are exactly those left with four empty lists. |
| `ServiceRemoval.StrippedOn` | firmware/yaml/.esphome/.espressif/service_d92d8f1e/espressif__mdns_1.9.1_29e47564/mdns.c:2787-2866 | What the walk does to a link depends on that link and its packets only. |
| `ServiceRemoval.LinkStrip` | firmware/yaml/.esphome/.espressif/service_d92d8f1e/espressif__mdns_1.9.1_29e47564/mdns.c:2803-2857 | A probing link goes on with what is left, still with its packet, or runs when nothing is left. |
| `ServiceRemoval.RemovedOk` | firmware/yaml/.esphome/.espressif/service_d92d8f1e/espressif__mdns_1.9.1_29e47564/mdns.c:2787-2866 | Removal keeps the whole invariant. |
| `ServiceRemoval.RemovalLeavesNothing` | firmware/yaml/.esphome/.espressif/service_d92d8f1e/espressif__mdns_1.9.1_29e47564/mdns.c:2787-2866 | From every reachable state, afterwards no answers, additional or servers list of a scheduled packet names the service; everything else stays in its order; exactly the packets left with nothing are gone; and a link still lists the service for probing if and only if it is not ready and did so before. |
| `ResponderTask.Task.SchedulerRun` | firmware/yaml/.esphome/.espressif/service_d92d8f1e/espressif__mdns_1.9.1_29e47564/mdns.c:5349-5381 | The two loops over the list flag and post what the step function says, for every pattern of refused posts. |
| `ResponderTask.Task.CreateProbePacket` | firmware/yaml/.esphome/.espressif/service_d92d8f1e/espressif__mdns_1.9.1_29e47564/mdns.c:2112-2161 | The loops over services, questions and hosts build the sections of the step function. |
| `ResponderTask.Task.CreateAnnounceFromProbe` | firmware/yaml/.esphome/.espressif/service_d92d8f1e/espressif__mdns_1.9.1_29e47564/mdns.c:2196-2231 | The loop over the proposed records builds the announcement of the step function. |
| `ResponderTask.Task.InitPcbProbeNewService` | firmware/yaml/.esphome/.espressif/service_d92d8f1e/espressif__mdns_1.9.1_29e47564/mdns.c:2260-2307 | The field-by-field start of a probe, with its copied array, ends in the state of the step function exactly when the copy stays within the array. |
| `ResponderTask.Task.InitPcbProbe` | firmware/yaml/.esphome/.espressif/service_d92d8f1e/espressif__mdns_1.9.1_29e47564/mdns.c:2316-2351 | The search for services not yet probed for and the start behind it end in the state of the step function, exactly when there is no host name or the copy stays within its array. |
| `ResponderTask.Task.ProbeAllPcbs` | firmware/yaml/.esphome/.espressif/service_d92d8f1e/espressif__mdns_1.9.1_29e47564/mdns.c:2494-2511 | The loop over the links ends in the state of the step function, exactly when every start stays within its array. |
| `ResponderTask.Task.RestartAllPcbs` | firmware/yaml/.esphome/.espressif/service_d92d8f1e/espressif__mdns_1.9.1_29e47564/mdns.c:2610-2632 | Clearing the queue and probing anew, in place, from every state: what was probed for is forgotten first, so every copy fits. |
| `ResponderTask.Task.AnnouncePcb` | firmware/yaml/.esphome/.espressif/service_d92d8f1e/espressif__mdns_1.9.1_29e47564/mdns.c:2451-2489 | The announcement in place, from every state: a probe is restarted, the waiting packet extended, or a new one scheduled, as the step function says. |
| `ResponderTask.Task.EnablePcb` | firmware/yaml/.esphome/.espressif/service_d92d8f1e/espressif__mdns_1.9.1_29e47564/mdns.c:4362-4371 | Bringing a link up, in place, exactly when the start behind it stays within its array. |
| `ResponderTask.Task.DisablePcb` | firmware/yaml/.esphome/.espressif/service_d92d8f1e/espressif__mdns_1.9.1_29e47564/mdns.c:4376-4390 | Taking a link down, in place. |
| `ResponderTask.Task.TxHandlePacket` | firmware/yaml/.esphome/.espressif/service_d92d8f1e/espressif__mdns_1.9.1_29e47564/mdns.c:5103-5158 | The switch over the state of the link, in place: what is sent, scheduled again or replaced, and the next state. |
| `ResponderTask.Task.ExecuteTxHandle` | firmware/yaml/.esphome/.espressif/service_d92d8f1e/espressif__mdns_1.9.1_29e47564/mdns.c:5279-5290 | The action for a packet, in place. |
| `ResponderTask.Task.RemoveScheduledServicePackets` | firmware/yaml/.esphome/.espressif/service_d92d8f1e/espressif__mdns_1.9.1_29e47564/mdns.c:2787-2866 | The walk that edits packets, links and the list at once ends in the state of the step function. |
| `ResponderTask.StrikeService` | firmware/yaml/.esphome/.espressif/service_d92d8f1e/espressif__mdns_1.9.1_29e47564/mdns.c:2806-2817 | Moving the entries behind the found one forward removes it. |
| `ResponderTask.StripPacket` | firmware/yaml/.esphome/.espressif/service_d92d8f1e/espressif__mdns_1.9.1_29e47564/mdns.c:2795-2857 | One packet of the walk and its link. |
| `Announcing.AnnouncedIsExact` | firmware/yaml/.esphome/.espressif/service_d92d8f1e/espressif__mdns_1.9.1_29e47564/mdns.c:2196-2231 | The announcement made of a probe holds, for each SRV record of a service, its SDPTR, PTR, SRV and TXT records and the address records of its host, and each address record proposed; nothing else, and nothing but shared records without a cache flush. |
| `Announcing.HostsHas` | firmware/yaml/.esphome/.espressif/service_d92d8f1e/espressif__mdns_1.9.1_29e47564/mdns.c:2033-2051 | The hosts proposed or announced are those the host names of the services mean, or the own one if there are no services. |
| `Announcing.AnnounceServicesHas` | firmware/yaml/.esphome/.espressif/service_d92d8f1e/espressif__mdns_1.9.1_29e47564/mdns.c:2458-2467 | Of every service called for the four records enter the list, and nothing else does. |
| `Announcing.AnnounceRunning` | firmware/yaml/.esphome/.espressif/service_d92d8f1e/espressif__mdns_1.9.1_29e47564/mdns.c:2476-2487 | On a running link a call to announce makes one packet, due at once, with exactly these records in its answers and those of the hosts in its servers. |
| `Announcing.AnnounceWaiting` | firmware/yaml/.esphome/.espressif/service_d92d8f1e/espressif__mdns_1.9.1_29e47564/mdns.c:2458-2475 | On an announcing link they enter the answers of its first packet, which loses at most address records without service from its additional ones; without a packet nothing happens. |
| `Announcing.DeallocIs` | firmware/yaml/.esphome/.espressif/service_d92d8f1e/espressif__mdns_1.9.1_29e47564/mdns.c:1704-1728 | Exactly the first record of that type and service leaves a list. |
| `Announcing.FirstAnnouncement` | firmware/yaml/.esphome/.espressif/service_d92d8f1e/espressif__mdns_1.9.1_29e47564/mdns.c:5128-5149 | The first announcement of a link holds exactly what the records of its last probe become. |
| `Announcing.ProbedIsAnnounced` | firmware/yaml/.esphome/.espressif/service_d92d8f1e/espressif__mdns_1.9.1_29e47564/mdns.c:5128-5149 | Every service a ready link was probing for is announced when the last probe has left: its four records, and the addresses of its host. |
| `Announcing.PhaseGoesOn` | firmware/yaml/.esphome/.espressif/service_d92d8f1e/espressif__mdns_1.9.1_29e47564/mdns.c:5128-5158 | Clock, timer, service task, and steps that leave a link alone take its announcement from one dispatch to the next and to nothing else. |
| `Announcing.AnnouncedThreeTimes` | firmware/yaml/.esphome/.espressif/service_d92d8f1e/espressif__mdns_1.9.1_29e47564/mdns.c:5128-5158 | In every run that leaves the link to itself the first announcement goes out more than 250 ms after the last probe, and twice more, each time more than a second later; the link runs when and only when that is done (section 8.3 of RFC 6762). |
| `ProbeQuestions.ProbeAsks` | firmware/yaml/.esphome/.espressif/service_d92d8f1e/espressif__mdns_1.9.1_29e47564/mdns.c:2112-2161 | A probe asks about every service it is for, and if addresses are probed for about the own name and the host names of the services; about nothing else, and about nothing twice. |
| `ProbeQuestions.ProbeProposes` | firmware/yaml/.esphome/.espressif/service_d92d8f1e/espressif__mdns_1.9.1_29e47564/mdns.c:2112-2161 | It proposes an SRV record for every service and, if addresses are probed for, those of the hosts; nothing else. |
| `ProbeQuestions.AskingExact` | firmware/yaml/.esphome/.espressif/service_d92d8f1e/espressif__mdns_1.9.1_29e47564/mdns.c:2829-2847 | While a link probes, its packet asks about exactly the services the link probes for, and about host names: every step there is keeps that if and only if it is not a removal that finds the question of another service of the same type first. |
| `ProbeQuestions.EveryRunAsks` | firmware/yaml/.esphome/.espressif/service_d92d8f1e/espressif__mdns_1.9.1_29e47564/mdns.c:5418-5438 | It holds after every run of safe steps without such a removal, in every interleaving. |
| `ProbeQuestions.AnnouncedWasAsked` | firmware/yaml/.esphome/.espressif/service_d92d8f1e/espressif__mdns_1.9.1_29e47564/mdns.c:5128-5149 | Then no service is announced unless each of the three probes before asked about it, and about the own name and its host if addresses were probed for. |
| `ProbeQuestions.WrongQuestionDropped` | firmware/yaml/.esphome/.espressif/service_d92d8f1e/espressif__mdns_1.9.1_29e47564/mdns.c:2829-2847 | The failing case made concrete: of two services of one type that a link probes for the second is removed; the question about the first is dropped in its place, and the link goes on to probe for the first without asking about it. |
| `StepRules.RenameProbes` | firmware/yaml/.esphome/.espressif/service_d92d8f1e/espressif__mdns_1.9.1_29e47564/mdns.c:5160-5172 | After a new host name every ready link probes for all registered services and its addresses, and services on the old name are on the new one. |
| `StepRules.RestartMine` | firmware/yaml/.esphome/.espressif/service_d92d8f1e/espressif__mdns_1.9.1_29e47564/mdns.c:2610-2632 | After a restart each ready link has one packet; no start touches the packets of another link. |
| `StepRules.RegisterProbes` | firmware/yaml/.esphome/.espressif/service_d92d8f1e/espressif__mdns_1.9.1_29e47564/mdns.c:2494-2511 | A new service is probed for on every ready link, besides what the link was probing for. |
| `StepRules.NamelessIs` | firmware/yaml/.esphome/.espressif/service_d92d8f1e/espressif__mdns_1.9.1_29e47564/mdns.c:2582-2605 | The services probed anew for a new default name are exactly the registered ones without instance name. |
| `StepRules.EnableProbes` | firmware/yaml/.esphome/.espressif/service_d92d8f1e/espressif__mdns_1.9.1_29e47564/mdns.c:4362-4371 | A link that comes up probes for all registered services and its addresses, besides what it was probing for. |
| `StepRules.DisableClears` | firmware/yaml/.esphome/.espressif/service_d92d8f1e/espressif__mdns_1.9.1_29e47564/mdns.c:4376-4390 | A ready link that goes down is reset and its packets are gone; the packets of other links stay. |
| `StepRules.TimerFlags` | firmware/yaml/.esphome/.espressif/service_d92d8f1e/espressif__mdns_1.9.1_29e47564/mdns.c:5349-5381 | The timer flags every packet that is due and not flagged yet, as far as its post is taken, and posts those newly flagged in order. |
| `StepRules.RespondIs` | firmware/yaml/.esphome/.espressif/service_d92d8f1e/espressif__mdns_1.9.1_29e47564/mdns.c:1993-2003 | A reply holds what was asked for it; a shared one is scheduled 25 to 100 ms from now, any other is sent at once, and a link that probes or is off does not reply. |
| `StepRules.RemoveAnswerIs` | firmware/yaml/.esphome/.espressif/service_d92d8f1e/espressif__mdns_1.9.1_29e47564/mdns.c:1670-1699 | A known answer takes the first record of that type and service out of the packets of distributed queries on its link, and changes no other. |
| `StepRules.AddHostIs` | firmware/yaml/.esphome/.espressif/service_d92d8f1e/espressif__mdns_1.9.1_29e47564/mdns.c:3150-3170 | A delegated host is known afterwards, up to case, and no other name becomes known. |
| `StepRules.WithoutHostIs` | firmware/yaml/.esphome/.espressif/service_d92d8f1e/espressif__mdns_1.9.1_29e47564/mdns.c:3235-3272 | Removing a host takes the first one of that name out of the list, if there is one. |
| `StepRules.AnnouncingStrip` | firmware/yaml/.esphome/.espressif/service_d92d8f1e/espressif__mdns_1.9.1_29e47564/mdns.c:2849-2856 | When a service is removed, an announcing link runs if and only if one of its packets had answers and all of them were of the service. |
| `Collision.RankIsOrder` | firmware/yaml/.esphome/.espressif/service_d92d8f1e/espressif__mdns_1.9.1_29e47564/mdns.c:2925-2967 | Longer first, then by octets, is a total order on encodings: equal only to itself, antisymmetric, transitive. |
| `Collision.UniqueWinner` | firmware/yaml/.esphome/.espressif/service_d92d8f1e/espressif__mdns_1.9.1_29e47564/mdns.c:2925-2967 | Of any set of distinct encodings exactly one comes before all the others. |
| `Collision.UniqueSrvWinner` | firmware/yaml/.esphome/.espressif/service_d92d8f1e/espressif__mdns_1.9.1_29e47564/mdns.c:2917-2969 | Of any number of distinct claims by named responders in the default domain exactly one wins its SRV check against all the others (section 8.2 of RFC 6762). |
| `Collision.UniqueTxtWinner` | firmware/yaml/.esphome/.espressif/service_d92d8f1e/espressif__mdns_1.9.1_29e47564/mdns.c:2974-3014 | Of any number of TXT claims with different encodings exactly one wins its check against all the others. |
| `Collision.OwnRecordHeard` | firmware/yaml/.esphome/.espressif/service_d92d8f1e/espressif__mdns_1.9.1_29e47564/mdns.c:4059-4070 | The SRV record the responder itself sends for a service, heard in a probe or response, is no conflict if and only if the host of the service is another one than the own or its name has the same octets. |
| `Collision.LosesToItself` | firmware/yaml/.esphome/.espressif/service_d92d8f1e/espressif__mdns_1.9.1_29e47564/mdns.c:2917-2969 | The failing case made concrete: the own host is A, the service was added for host a, and its record beats the own claim. |
| `Collision.SrvWinner` | firmware/yaml/.esphome/.espressif/service_d92d8f1e/espressif__mdns_1.9.1_29e47564/mdns.c:2938-2967 | Who wins, in numbers: between named responders in the default domain the longer host wins, and of hosts of one length the first of priority, weight, port and octets of the host that differs decides, for the greater. |
| `Collision.TxtWinner` | firmware/yaml/.esphome/.espressif/service_d92d8f1e/espressif__mdns_1.9.1_29e47564/mdns.c:2986-3013 | For TXT records that hold anything, with entries of at most 255 octets, the one of more octets wins, and of two as long the first entry that differs decides: for the longer one, or the one whose first differing octet is greater. |
| `Collision.CheckSrvCollision` | firmware/yaml/.esphome/.espressif/service_d92d8f1e/espressif__mdns_1.9.1_29e47564/mdns.c:2917-2969 | The check that fills two arrays and compares them returns the order of the two encodings, and no conflict without an own host name. |
| `Collision.SrvTieBreak` | firmware/yaml/.esphome/.espressif/service_d92d8f1e/espressif__mdns_1.9.1_29e47564/mdns.c:2917-2969 | Between named responders in the default domain a check finds no conflict exactly when priority, weight, port and host agree, the two sides get opposite results, and winning is transitive. |
| `Collision.CheckTxtCollision` | firmware/yaml/.esphome/.espressif/service_d92d8f1e/espressif__mdns_1.9.1_29e47564/mdns.c:2974-3014 | The TXT check, with its special cases for empty records, compares the data received with the own entries as they are laid down over whatever the array on the stack held, entry by entry, of any length. |
| `Collision.TxtCheckIs` | firmware/yaml/.esphome/.espressif/service_d92d8f1e/espressif__mdns_1.9.1_29e47564/mdns.c:2974-3014 | When the own data fit into a packet, or differ in length from the data received, that is the order of the two encodings whatever the stack held. |
| `Collision.TxtTieBreak` | firmware/yaml/.esphome/.espressif/service_d92d8f1e/espressif__mdns_1.9.1_29e47564/mdns.c:2974-3014 | For TXT records that hold anything a check finds no conflict exactly when the encodings agree, the two sides get opposite results, and winning is transitive. |
| `Collision.BareConflictsWithItself` | firmware/yaml/.esphome/.espressif/service_d92d8f1e/espressif__mdns_1.9.1_29e47564/mdns.c:2974-2985 | A record conflicts with its own encoding if and only if it is the single entry without key and value. |
| `Mangle.MangledName` | firmware/yaml/.esphome/.espressif/service_d92d8f1e/espressif__mdns_1.9.1_29e47564/mdns.c:232-270 | A mangled name keeps its stem, and reading its number back gives one more than before. |
| `Mangle.Renamed` | firmware/yaml/.esphome/.espressif/service_d92d8f1e/espressif__mdns_1.9.1_29e47564/mdns.c:232-270 | After any number of renamings the stem is that of the first name and the number has risen by as many. |
| `Mangle.RenamingNeverCycles` | firmware/yaml/.esphome/.espressif/service_d92d8f1e/espressif__mdns_1.9.1_29e47564/mdns.c:232-270 | While the number stays below the largest int no name comes back. |
| `Mangle.MangledNameFits` | firmware/yaml/.esphome/.espressif/service_d92d8f1e/espressif__mdns_1.9.1_29e47564/mdns.c:248-268 | Each new name fits the buffer that is sized for it, since one more takes at most one digit more. |
| `Mangle.StrToLOfDecimal` | firmware/yaml/.esphome/.espressif/service_d92d8f1e/espressif__mdns_1.9.1_29e47564/mdns.c:242-243 | A printed number is read back as itself. |
| `Mangle.NewName` | firmware/yaml/.esphome/.espressif/service_d92d8f1e/espressif__mdns_1.9.1_29e47564/mdns.c:232-270 | The function on buffers, with its search for the dash and its reading of digits, leaves the mangled name as a C string. |
| `PtrSearch.AddPtrKeeps` | firmware/yaml/.esphome/.espressif/service_d92d8f1e/espressif__mdns_1.9.1_29e47564/mdns.c:4803-4840 | A PTR record keeps count, cap and uniqueness, and changes no name. |
| `PtrSearch.EverySearch` | firmware/yaml/.esphome/.espressif/service_d92d8f1e/espressif__mdns_1.9.1_29e47564/mdns.c:4745-4840 | Over every sequence of PTR, SRV, TXT and address records the count is the length of the list, never above a non-zero cap, and on one link no two results share a non-empty instance name, up to case. |
| `PtrSearch.ReceiveTtl` | firmware/yaml/.esphome/.espressif/service_d92d8f1e/espressif__mdns_1.9.1_29e47564/mdns.c:4708-4711 | A record opens a result with its own lifetime, shortens one to the lesser of two, or leaves all lifetimes alone. |
| `PtrSearch.TtlIsLeast` | firmware/yaml/.esphome/.espressif/service_d92d8f1e/espressif__mdns_1.9.1_29e47564/mdns.c:4708-4840 | The lifetime of each result is the least of those that entered into it, and one of them. |
| `PtrSearch.PtrEnters` | firmware/yaml/.esphome/.espressif/service_d92d8f1e/espressif__mdns_1.9.1_29e47564/mdns.c:4803-4813 | A named PTR record enters into the one result of its instance. |
| `PtrSearch.NamelessAreNotMerged` | firmware/yaml/.esphome/.espressif/service_d92d8f1e/espressif__mdns_1.9.1_29e47564/mdns.c:4803-4838 | Without an instance name every PTR record opens a result of its own while there is room. |
| `PtrSearch.ReceiveTurns` | firmware/yaml/.esphome/.espressif/service_d92d8f1e/espressif__mdns_1.9.1_29e47564/mdns.c:4745-4840 | What one record does to the results, lifetimes aside: it adds to the one it is about, or opens one, and leaves all others as they are. |
| `PtrSearch.ResultHolds` | firmware/yaml/.esphome/.espressif/service_d92d8f1e/espressif__mdns_1.9.1_29e47564/mdns.c:4745-4840 | Over every sequence of records a result has the name of the record that opened it, host and port of the first SRV record about it, the items of the first TXT record about it that has any, and the addresses of all address records about it, none twice. |
| `PtrSearch.RunningSearch.AddPtrRecord` | firmware/yaml/.esphome/.espressif/service_d92d8f1e/espressif__mdns_1.9.1_29e47564/mdns.c:4803-4840 | The list walk of the search, in place. |
| `PtrSearch.RunningSearch.AddSrvRecord` | firmware/yaml/.esphome/.espressif/service_d92d8f1e/espressif__mdns_1.9.1_29e47564/mdns.c:4007-4052 | The SRV branch of the parser for a PTR search, in place: host and port are set once. |
| `PtrSearch.RunningSearch.AddTxtRecord` | firmware/yaml/.esphome/.espressif/service_d92d8f1e/espressif__mdns_1.9.1_29e47564/mdns.c:4120-4148 | The TXT branch, in place: items are set once. |
| `PtrSearch.RunningSearch.AddAddressRecord` | firmware/yaml/.esphome/.espressif/service_d92d8f1e/espressif__mdns_1.9.1_29e47564/mdns.c:4790-4797 | An address goes to the newest result at its host, once, and shortens its life. |
| `LedSequencer.FirstContinuous` | firmware/custom_components/led_sequencer/led_sequencer.cpp:79-85 | The lowest active continuous pattern, or none. |
| `LedSequencer.NextDefault` | firmware/custom_components/led_sequencer/led_sequencer.cpp:87-93 | The lowest active default pattern from an index on, or none. |
| `LedSequencer.SetActiveAt` | firmware/custom_components/led_sequencer/led_sequencer.cpp:59-67 | Setting a pattern changes the active flag of the first one of that name and nothing else. |
| `LedSequencer.ClearActive` | firmware/custom_components/led_sequencer/led_sequencer.cpp:69-71 | Clearing turns every flag off and changes nothing else. |
| `LedSequencer.Sequencer.SetPattern` | firmware/custom_components/led_sequencer/led_sequencer.cpp:59-67 | The loop that stops at the name, in place. |
| `LedSequencer.Sequencer.ClearAll` | firmware/custom_components/led_sequencer/led_sequencer.cpp:69-71 | The loop over all patterns, in place. |
| `LedSequencer.Sequencer.FindContinuousActive` | firmware/custom_components/led_sequencer/led_sequencer.cpp:79-85 | The search loop finds the first one. |
| `LedSequencer.Sequencer.FindNextActiveDefault` | firmware/custom_components/led_sequencer/led_sequencer.cpp:87-93 | The search loop finds the first one from the index on. |
| `LedSequencer.Sequencer.Advance` | firmware/custom_components/led_sequencer/led_sequencer.cpp:97-239 | The branches that set phase, cursors, pin and deadline one by one leave the next state of the machine and a deadline that is the time of the call plus the length of the segment. |
| `LedSequencer.Sequencer.AdvanceContinuous` | firmware/custom_components/led_sequencer/led_sequencer.cpp:97-138 | The part for an active continuous pattern. |
| `LedSequencer.Sequencer.AdvanceDefault` | firmware/custom_components/led_sequencer/led_sequencer.cpp:140-198 | The part for default patterns, gaps and idling. |
| `LedSequencer.Sequencer.AdvancePattern` | firmware/custom_components/led_sequencer/led_sequencer.cpp:200-238 | The part inside a default pattern. |
| `LedSequencer.Sequencer.Loop` | firmware/custom_components/led_sequencer/led_sequencer.cpp:38-41 | Nothing happens before the deadline. |
| `LedRuns.EveryRun` | firmware/custom_components/led_sequencer/led_sequencer.cpp:97-239 | Under arbitrary calls of the interface the pin is high exactly in phase ON and every cursor in use is in range; after every advance an active continuous pattern, the first in the table, is the one that plays. |
| `LedRuns.PriorityOfContinuous` | firmware/custom_components/led_sequencer/led_sequencer.cpp:97-116 | One advance suffices for the first active continuous pattern to play. |
| `LedRuns.RestIsFlat` | firmware/custom_components/led_sequencer/led_sequencer.cpp:200-228 | What a cursor has still to show of a pattern is the pulses left of its step and those of the steps behind it. |
| `LedRuns.PulsesFromStart` | firmware/custom_components/led_sequencer/led_sequencer.cpp:155-165 | A pattern that starts shows its whole flat pulse train. |
| `LedRuns.PlayedExactlyOnce` | firmware/custom_components/led_sequencer/led_sequencer.cpp:87-93 | A default pattern that is active at every call from the start of a frame to its end is shown exactly once in it, whole and in order, whatever is toggled among the others, while no continuous pattern is active. |
| `LedRuns.RestOfFrame` | firmware/custom_components/led_sequencer/led_sequencer.cpp:167-239 | The same from anywhere inside a frame, for what the frame still owes. |
| `LedRuns.InactiveNeverShown` | firmware/custom_components/led_sequencer/led_sequencer.cpp:87-93 | A pattern that is inactive at every call is never shown, unless it was playing already. |
| `LedRuns.MeasureFalls` | firmware/custom_components/led_sequencer/led_sequencer.cpp:167-239 | Inside a frame each call ends it or comes nearer to its end. |
| `LedRuns.FramesEnd` | firmware/custom_components/led_sequencer/led_sequencer.cpp:167-239 | Whatever is toggled among default patterns, a frame ends within the calls its measure gives. |
| `LedRuns.FrameIsFlat` | firmware/custom_components/led_sequencer/led_sequencer.cpp:148-239 | With fixed flags the calls of a frame show exactly the flat frame: the active default patterns in order, each pair as often as its step says, the short gap between patterns and the long one at the end; and the frame ends with the last of these calls. |
| `LedRuns.RemainingShown` | firmware/custom_components/led_sequencer/led_sequencer.cpp:167-239 | The same from anywhere inside a frame, in exactly as many calls as segments remain. |
| `LedRuns.NothingActive` | firmware/custom_components/led_sequencer/led_sequencer.cpp:150-158 | With nothing active the pin stays low and the machine polls. |
| `LedRuns.ContinuousIsCyclic` | firmware/custom_components/led_sequencer/led_sequencer.cpp:97-138 | While a continuous pattern stays the first active one, whatever is toggled besides, it shows, from the call on which it takes over, its pulse train from the first step on, over and over: the i-th call shows segment i of the train, counted around. |
| `LedRuns.CycleShown` | firmware/custom_components/led_sequencer/led_sequencer.cpp:117-138 | The same from any point of the pattern: first what is left of the round, then round after round. |

## Left out

- Allocation: every allocation succeeds, so the branches that handle failure, and the early end of a timer run on failure, are not modelled.
- Time: ticks in the transmit queue and milliseconds in the LED loop do not wrap, and a step takes place at one instant.
- Sockets: sending is an entry in the trace, and readiness of a link a flag that only bringing it up and taking it down change; closing a socket succeeds.
- Duplicate interfaces: the state in which an interface stands aside for another on the same subnet, and the search for the other interface.
- Reverse look-ups: the code under `CONFIG_MDNS_RESPOND_REVERSE_QUERIES`.
- Browsing, one-shot queries other than PTR searches, and the packets that searches send, which never enter the transmit queue.
- The packet parser as a whole: what its branches do to links, queue, searches and replies are steps of the model; which record takes which branch is left open, so every branch may be taken at any time.
- Goodbye packets: they are sent at once and change no state.
- Questions of removed services: nothing is claimed about the strings that questions borrow from services.
- Service data other than names: changing port, TXT or subtypes of a service only appears as the announcement that follows it.
- LED set-up, logging and code generation: of the schema only the ranges are used, a repeat of 1 to 255 and sequences that are not empty.
- Memory reuse: a removed service or packet keeps its identity for good, so a new object at an old address is not modelled.
- NameRoundTrip.CompressionRoundTrip: labels are 1 to 63 octets without NUL and the uncompressed name fits, since the length of a label is kept in one octet; longer labels are at `NameRoundTrip.LabelLengthIsExact`, up to 191 octets, where the length octet becomes a pointer.
- NameRoundTrip.CompressionIsExact: labels are ASCII, and the octet in front of the name, if any, is below 0xC0; otherwise a pointer astray may happen to read as wanted, and only the direction of `NameRoundTrip.CompressionRoundTrip` is claimed.
- OnTheWire.PacketTells: that all matches are settled and read without the header is a hypothesis, which `NameRoundTrip.CompressionIsExact` and `ReadBack.HeaderIsNotRead` show to be needed name by name; names are read up to ASCII case.
- The strings behind identities: packets of the responder name services and hosts by identity, packets on the wire by their strings; that a question or answer is written with the strings of its service is not stated.
- NameReader.ReadFqdn: the buffer has one octet behind the packet, since a pointer at the very end reads past it.
- Framing.SpelledIsFramed: labels are 1 to 63 octets.
- Dispatch.DispatchTxPacket: nothing is claimed about a packet in which a write was refused, and the length of a question stays within one octet; services and known answers have instance names, and an SRV record without any host leaves octets behind that no count covers.
- Dispatch.PutQuestion: nothing is claimed when the length, which the source keeps in one octet, wraps.
- Answers.ReplyIsExact: registered services are distinct objects; what is said of address records is at `AnswerRules.AllHostsAnswered` and where they accompany a service; whether the reply is sent at once or after a delay is part of the responder's steps.
- AnswerRules.ReplyFollowsTheRule: the responder has a host name, services have instance names of their own, and no known answer is precisely at half of its lifetime; `AnswerRules.KnownAnswersHonoured` and `AnswerRules.HalfIsAnswered` say what happens otherwise.
- Received.ReceivedFollowsTheRule: only known PTR records are followed through the parser; what known SRV, TXT, address and enumeration records strike is left out, and so are PTR questions that name an instance.
- TxQueue.Queue.Schedule: the linked list carries packets as values; the steps of the responder use the list as a sequence, and the two are tied by the same functions.
- ResponderTask.Task.InitPcbProbe: what the program does once it has written beyond the array is not modelled; `fits` is then false, and no more is claimed.
- ResponderRuns.StepExact: steps are given links and services that exist, lists of services without duplicates, and a probe that asks for something, as all callers do; when a delegated host is removed, the services on it are unregistered in steps of their own.
- ResponderRuns.LastProbe: exact counts are claimed for probes only, since any packet that leaves an announcing link advances its state.
- Collision.SrvTieBreak: hosts are not empty and both sides are in the default domain; so are the claims of `Collision.UniqueSrvWinner`.
- Collision.CheckTxtCollision: what the array on the stack holds at first is a parameter; where own data reach the size of a packet, and the data received have the same length, the result depends on it.
- Collision.TxtWinner: the length of an entry is kept in one octet; entries beyond 255 octets are only covered by `Collision.TxtTieBreak`.
- Mangle.RenamingNeverCycles: the number stays below the largest `int`, where the increment is undefined.
- PtrSearch.EverySearch: a search without cap counts in one octet in the source and would wrap; the model's count does not.
- LedRuns.FrameIsFlat: the flags are fixed and no continuous pattern is active; with flags that change, `LedRuns.PlayedExactlyOnce` says what is kept.
