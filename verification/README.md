# A verified model of portl

portl gives a peer access to a machine over QUIC: signed tickets grant
capabilities, an agent checks them, and streams for shells, TCP, UDP, Unix
sockets and HTTP flow through it. This project models the parts of portl whose
correctness is not plain from reading one function, and proves what they promise.
`dafny verify dfyconfig.toml` checks all of it.

| file | models |
|---|---|
| `QueryStripper.dfy`, `QueryResponseFilter.dfy`, `ControlSequences.dfy` | the two terminal filters: a byte-at-a-time machine with a 32-byte buffer on one side, a stateless tokenizer of control sequences (section 5.4 of ECMA-48) on the other, and their equality over every stream, chunking and timeout |
| `Capabilities.dfy`, `Enforcement.dfy`, `Pipeline.dfy` | capability narrowing, the permission checks and the acceptance of a delegation chain |
| `Revocations.dfy` | the revocation set: batches, garbage collection, disk syncs, restarts and the live sessions it cancels |
| `UdpRegistry.dfy` | the UDP session registry: attachment, lingering, expiry and the quota per connection |
| `HerdrWire.dfy`, `HerdrBudget.dfy`, `LittleEndian.dfy` | Herdr frames read from a byte stream under any pattern of short reads, canonical lengths, clipboard images, and the byte budget |
| `Migration.dfy` | the no-clobber file migration, with any number of migrators, one file-system call a step |
| `Gateway.dfy`, `GatewayBlock.dfy`, `HeaderRewrite.dfy`, `TextLines.dfy` | the gateway's header reader and header rewrite, and the rewritten block as a whole |
| `PairCode.dfy` | invite codes |
| `Watchdog.dfy` | the network watchdog's health record and refresh decisions |
| `Calendar.dfy` | the conversion of Unix seconds to a date and time |

Objects that the source updates in place (both filters, the revocation set, the
UDP registry, the health record, the frame reader) are classes whose methods are
proved equal to specification functions; the loops of the source are loops here.
The theorems are about those specification functions, over whole runs. Protocols
with several parties (migration, budget, registry, revocations) are state machines
over their steps, and every theorem holds for every finite run.

What the model takes as given:

- Signatures, hashes and ticket decoding are functions of a `Primitives` value that the
  theorems quantify over, and so are the rules of a ticket's canonical form about its
  nonce, target and protocol list; its other rules are defined. Whether bytes are UTF-8
  is a predicate that is quantified over in the same way.
- Clocks, random ids, the answers of the operating system, read sizes, DNS and
  disk results are parameters of the steps. The theorems hold for all of them.
- Texts whose bytes matter are strings with one character for each byte.
- Integer widths are explicit where the source can reach them: the 32-bit year,
  64-bit sums that wrap in garbage collection, saturating counters, the checked
  additions of the frame reader.

Where the code and its own words differ, the model follows the code:

- `unix_socket_path_is_safe` accepts interior `.` components, which the path
  library drops, although the message of `validate_unix_path_rule` says otherwise
  (crates/portl-core/src/ticket/schema.rs:198-231).
- The end of a revocation's linger period wraps at 2^64
  (crates/portl-agent/src/revocations.rs:250-277).
- A re-attach that the UDP quota refuses has already changed the session
  (crates/portl-agent/src/udp_registry.rs:108-121).

Some natural statements are not true of the code on all inputs. For each there is
a theorem with the exact condition under which it is, and a lemma that shows where
it is not:

- A revoked id stays revoked until its ticket expires: exactly from states where a
  record that outlives the ticket is in memory and in the file, or the file does not
  load (`RevokedUntilIff`). A record that another process appended is lost when the
  agent overwrites the file before its next sync (`AppendLostFromEmpty`), and one
  that does not know the expiry is forgotten after the linger period
  (`UnknownExpiryForgotten`). From every other state some run accepts an offer with
  the ticket (`UnguardedAccepts`).
- A rewritten header block has one authorization, one connection and one blank line:
  exactly when no line between bare line feeds of the request line is one of them
  (`WholeBlockIff`, `LineWithinKept`).
- Narrowing of capabilities composes: exactly when the file-system roots do not use
  the empty root without `/` (`NarrowingTransitiveIff`, `RootGap`).
- Narrowed capabilities admit no new listen: exactly when every port of every rule is
  covered by rules whose globs are wider, where the wildcard stands for the loopback
  hosts only (`ListenAttenuatesIff`, `ListenGap`).
- The session counters are exact: until a re-attach is refused (`AttachOrCreateInv`,
  `QuotaGap`).
- One endpoint refresh is in flight at a time: exactly on runs where none is asked for
  beside another (`OneAtATimeIff`), as on all without a handshake during a refresh
  (`OneAtATime`, `SecondRefresh`).
- An invite comes back from its code: exactly when it is of version 1 and its hint is
  absent or not empty (`RoundTripIff`, `EmptyHintLost`).
- The date and time name the second: exactly before the year 2^32
  (`UnixToYmdhmsCorrect`, `FirstUnrepresentableExists`).

## Model

| member | source | states |
|---|---|---|
| `QueryStripper.TokenizeCuts` | crates/portl-core/src/query_stripper.rs:93-179 | the reference tokens cut every stream into consecutive non-empty pieces without loss |
| `QueryStripper.TokenizeSequences` | crates/portl-core/src/query_stripper.rs:139-162 | every token that may be deleted is one whole control sequence of at most 32 bytes |
| `QueryStripper.StepShaped` | crates/portl-core/src/query_stripper.rs:93-179 | every byte keeps the buffer in the one shape that the mode allows |
| `QueryStripper.RunIsTokenizer` | crates/portl-core/src/query_stripper.rs:93-224 | the machine forwards the stream with exactly the tokenizer's query sequences deleted and holds back exactly the unfinished last token |
| `QueryStripper.RunOfHistory` | crates/portl-core/src/query_stripper.rs:43-57 | every run of feeds and finishes is one run of the machine over the bytes fed since the last finish |
| `QueryStripper.StripperMeaning` | crates/portl-core/src/query_stripper.rs:43-57 | over every run of feeds and finishes with any chunking: output is each stream without its query sequences, the buffer is the unfinished tail, and only `finish` drops it |
| `QueryStripper.ReachableShaped` | crates/portl-core/src/query_stripper.rs:187-193 | in every reachable state `push_pending` has room, so its overflow branch is never taken |
| `QueryStripper.Stripper.constructor` | crates/portl-core/src/query_stripper.rs:34-41 | a new stripper is in the initial state |
| `QueryStripper.Stripper.Feed` | crates/portl-core/src/query_stripper.rs:43-50 | feeding bytes is the machine's run over them, output and state |
| `QueryStripper.Stripper.FinishInput` | crates/portl-core/src/query_stripper.rs:52-57 | finishing drops the buffer and resets |
| `QueryStripper.Stripper.FeedByte` | crates/portl-core/src/query_stripper.rs:93-107 | one byte is one step of the machine |
| `QueryStripper.Stripper.FeedEscapeIntermediate` | crates/portl-core/src/query_stripper.rs:109-137 | the byte after an escape opens a control sequence, a string, a new escape or is flushed, as the machine says |
| `QueryStripper.Stripper.FeedCsiParam` | crates/portl-core/src/query_stripper.rs:139-162 | a control-sequence byte is buffered, judged at its final byte, or flushed when the buffer is full |
| `QueryStripper.Stripper.FeedStringByte` | crates/portl-core/src/query_stripper.rs:164-179 | string bytes pass through and the terminators end the string |
| `QueryStripper.Stripper.StartPendingEscape` | crates/portl-core/src/query_stripper.rs:181-185 | the buffer holds the escape alone |
| `QueryStripper.Stripper.PushPending` | crates/portl-core/src/query_stripper.rs:187-193 | a byte is appended, or a full buffer spills first |
| `QueryStripper.Stripper.FlushPending` | crates/portl-core/src/query_stripper.rs:195-199 | the whole buffer is emitted and emptied |
| `QueryResponseFilter.TokenizeCuts` | crates/portl-core/src/query_response_filter.rs:71-132 | the reference tokens cut every stream without loss, whatever offsets timeouts fire at |
| `QueryResponseFilter.TokenizeSequences` | crates/portl-core/src/query_response_filter.rs:105-132 | every token that may be deleted is one whole control sequence of at most 32 bytes |
| `QueryResponseFilter.StepShaped` | crates/portl-core/src/query_response_filter.rs:71-151 | every byte keeps the buffer in the shape of its mode |
| `QueryResponseFilter.TrackLongestMatch` | crates/portl-core/src/query_response_filter.rs:153-164 | the match counter stays the longest prefix of the end marker that the pasted bytes end with, and paste ends exactly when the marker is complete |
| `QueryResponseFilter.PasteInvariant` | crates/portl-core/src/query_response_filter.rs:72-76 | until the first end marker every pasted byte is forwarded unchanged and the counter is that longest match |
| `QueryResponseFilter.PasteEnds` | crates/portl-core/src/query_response_filter.rs:120-164 | paste mode ends exactly at the first end marker |
| `QueryResponseFilter.RunIsTokenizer` | crates/portl-core/src/query_response_filter.rs:71-201 | the machine forwards the stream with exactly the tokenizer's response sequences deleted and holds back the unfinished last token, for every set of timeout offsets |
| `QueryResponseFilter.RunOfHistory` | crates/portl-core/src/query_response_filter.rs:39-65 | every run of feeds, timeouts and finishes is one run over the bytes fed with timeouts at certain offsets |
| `QueryResponseFilter.FilterMeaning` | crates/portl-core/src/query_response_filter.rs:39-151 | over every run of feeds, timeouts and finishes with any chunking: output is the input without the response sequences, the buffer is the unfinished tail, nothing else is lost or reordered |
| `QueryResponseFilter.ReachableShaped` | crates/portl-core/src/query_response_filter.rs:140-146 | in every reachable state `push_pending` has room |
| `QueryResponseFilter.ResponseParamsMatch` | crates/portl-core/src/query_response_filter.rs:191-201 | true exactly for parameters of digits and the given separators with at least one digit |
| `QueryResponseFilter.JudgeResponse` | crates/portl-core/src/query_response_filter.rs:173-189 | true exactly for the response shapes |
| `QueryResponseFilter.Filter.constructor` | crates/portl-core/src/query_response_filter.rs:29-37 | a new filter is in the initial state |
| `QueryResponseFilter.Filter.FeedBytes` | crates/portl-core/src/query_response_filter.rs:39-45 | feeding bytes is the machine's run over them |
| `QueryResponseFilter.Filter.FlushAfterTimeout` | crates/portl-core/src/query_response_filter.rs:47-56 | a timeout emits a lone escape and returns to ground, and does nothing otherwise |
| `QueryResponseFilter.Filter.FinishInput` | crates/portl-core/src/query_response_filter.rs:58-65 | finishing emits the buffer and resets |
| `QueryResponseFilter.Filter.FeedByte` | crates/portl-core/src/query_response_filter.rs:71-103 | one byte is one step of the machine |
| `QueryResponseFilter.Filter.FeedAfterEscape` | crates/portl-core/src/query_response_filter.rs:84-101 | the byte after an escape opens a control sequence, starts over or is flushed, as the machine says |
| `QueryResponseFilter.Filter.StartPendingEscape` | crates/portl-core/src/query_response_filter.rs:134-138 | the buffer holds the escape alone |
| `QueryResponseFilter.Filter.PushPending` | crates/portl-core/src/query_response_filter.rs:140-146 | a byte is appended, or a full buffer spills first |
| `QueryResponseFilter.Filter.FlushPending` | crates/portl-core/src/query_response_filter.rs:148-151 | the whole buffer is emitted and emptied |
| `QueryResponseFilter.Filter.FeedInCsi` | crates/portl-core/src/query_response_filter.rs:105-132 | a control-sequence byte is buffered, judged at its final byte or flushed |
| `QueryResponseFilter.Filter.EndCsi` | crates/portl-core/src/query_response_filter.rs:114-132 | a finished sequence is dropped if it is a response, opens a paste if it is the begin marker, and is emitted otherwise |
| `QueryResponseFilter.Filter.TrackBracketedPasteEnd` | crates/portl-core/src/query_response_filter.rs:153-164 | the counter update is the machine's |
| `Capabilities.PortRulesTransitive` | crates/portl-core/src/caps.rs:91-107 | narrowing of port rules composes |
| `Capabilities.RuleCoversTransitive` | crates/portl-core/src/ticket/schema.rs:180-195 | covering of Unix path rules composes |
| `Capabilities.UnixRulesTransitive` | crates/portl-core/src/caps.rs:139-153 | narrowing of Unix rule lists composes |
| `Capabilities.RootsTransitive` | crates/portl-core/src/caps.rs:109-129 | narrowing of file-system roots composes when the empty root comes with `/` |
| `Capabilities.NarrowingTransitive` | crates/portl-core/src/caps.rs:16-153 | narrowing of whole capability sets composes under that condition on the first set |
| `Capabilities.RootGap` | crates/portl-core/src/caps.rs:123-129 | for every canonical set that breaks the condition there are two narrowings among canonical sets that do not compose |
| `Capabilities.NarrowingTransitiveIff` | crates/portl-core/src/caps.rs:16-153 | among canonical sets narrowing from a set composes exactly when its roots meet the condition |
| `Capabilities.OneRootCanonical` | crates/portl-core/src/ticket/canonical.rs:148-166 | the sets of that witness pass the canonical check on capabilities |
| `Enforcement.ShellAttenuates` | crates/portl-agent/src/caps_enforce.rs:7-46 | a shell request that a narrowed set permits is permitted by the wider set |
| `Enforcement.ConnectAttenuates` | crates/portl-agent/src/caps_enforce.rs:48-62 | the same for TCP and UDP destinations under narrowed port rules |
| `Enforcement.PathRuleAttenuates` | crates/portl-core/src/ticket/schema.rs:166-195 | a path that a covered rule matches is matched by the covering rule |
| `Enforcement.UnixAttenuates` | crates/portl-agent/src/caps_enforce.rs:87-102 | the same for Unix sockets |
| `Enforcement.ListenGlobAttenuatesIff` | crates/portl-agent/src/caps_enforce.rs:133-138 | exactly when a covering listen pattern admits every host that the covered one admits |
| `Enforcement.ListenRuleAttenuatesIff` | crates/portl-agent/src/caps_enforce.rs:64-85 | for a covered pair of port rules, exactly when every listen the covered rule admits is admitted by the covering rule, over all hosts and ports |
| `Enforcement.ListenNarrowsAttenuates` | crates/portl-agent/src/caps_enforce.rs:64-85 | a listen on any host attenuates between sets whose covering pairs meet that condition |
| `Enforcement.CoversListenIff` | crates/portl-agent/src/caps_enforce.rs:120-138 | a list of rules admits on a port every host of a glob exactly when it admits the loopback hosts for the wildcard, the host itself for a literal, and otherwise has one rule with a wider glob |
| `Enforcement.RulesListenIff` | crates/portl-agent/src/caps_enforce.rs:64-85 | for any two lists of rules, exactly when every listen one admits is admitted by the other, over all hosts and ports |
| `Enforcement.ListenAttenuatesIff` | crates/portl-agent/src/caps_enforce.rs:64-85 | under a narrowing, listening attenuates on all hosts and ports exactly under that condition |
| `Enforcement.ListenGap` | crates/portl-agent/src/caps_enforce.rs:133-138 | two canonical capability sets, one narrowing the other, and a host where a listen does not attenuate |
| `Enforcement.Attenuation` | crates/portl-agent/src/caps_enforce.rs:7-138 | every request other than a listen off loopback that a narrowed set permits is permitted by the wider set |
| `Pipeline.VerifyChainWithoutTime` | crates/portl-agent/src/pipeline.rs:145-221 | the loops compute the checks in order: the same verdict, issuer and reason as the specification |
| `Pipeline.VerifyChainIff` | crates/portl-agent/src/pipeline.rs:145-221 | a chain passes exactly when a quantified predicate over all its tickets and links holds |
| `Pipeline.CountdownBoundsLength` | crates/portl-agent/src/pipeline.rs:145-221 | the depth countdown alone bounds the length of a chain |
| `Pipeline.ChainAttenuates` | crates/portl-agent/src/pipeline.rs:145-221 | whatever a ticket of a valid chain permits, every ancestor permits |
| `Pipeline.ChainListens` | crates/portl-agent/src/pipeline.rs:145-221 | a listen on any host attenuates along a valid chain whose links all meet the exact condition |
| `Pipeline.ChainNarrows` | crates/portl-agent/src/pipeline.rs:145-221 | capabilities narrow between any two tickets of a valid chain whose ancestor's roots compose |
| `Pipeline.ChainComposesIff` | crates/portl-agent/src/pipeline.rs:145-221 | the capabilities of a valid chain are canonical, and narrowing composes below one of its tickets exactly when its roots do |
| `Pipeline.ChainWindows` | crates/portl-agent/src/pipeline.rs:145-221 | the validity window of every ticket lies within those of its ancestors |
| `Pipeline.TerminalWindowDecides` | crates/portl-agent/src/pipeline.rs:223-238 | on a valid chain checking every window accepts exactly when checking the terminal's does |
| `Pipeline.AcceptedIff` | crates/portl-agent/src/pipeline.rs:47-119 | an offer is accepted exactly when rate, decoding, chain, revocation, terminal window, proof and mode conditions all hold |
| `Pipeline.AcceptedAttenuates` | crates/portl-agent/src/pipeline.rs:47-119 | an accepted session permits nothing that a ticket of its chain, back to a trusted root, does not permit |
| `Revocations.KeptUntilIff` | crates/portl-agent/src/revocations.rs:250-277 | exactly which records every collection before a time keeps, with the wrapped linger end |
| `Revocations.RegisterRoundTrip` | crates/portl-agent/src/revocations.rs:183-209 | deregistering with the same chain leaves no trace of a session |
| `Revocations.RunConsistent` | crates/portl-agent/src/revocations.rs:91-285 | in every run the revoked ids are those of the stored records and no session entry is empty |
| `Revocations.StepCancels` | crates/portl-agent/src/revocations.rs:279-285 | every step cancels exactly the sessions registered under an id that it newly revokes |
| `Revocations.BatchAtomic` | crates/portl-agent/src/revocations.rs:120-169 | a batch that fails changes neither memory nor disk; one that succeeds adds all its ids |
| `Revocations.StepGuarded` | crates/portl-agent/src/revocations.rs:58-277 | every step keeps an id guarded: a protecting record in memory while the agent runs, and in the file unless that does not load, until the record's time |
| `Revocations.RunGuarded` | crates/portl-agent/src/revocations.rs:58-277 | the same for every run |
| `Revocations.RevokedUntilIff` | crates/portl-agent/src/revocations.rs:58-285 | from a consistent state the running agent holds an id revoked until T over every run exactly when the id is guarded |
| `Revocations.CollectForgets` | crates/portl-agent/src/revocations.rs:250-277 | without a protecting record in memory a collection just before T forgets the id and learns no other |
| `Revocations.UnknownExpiryForgotten` | crates/portl-agent/src/revocations.rs:250-277 | records that do not know the ticket's expiry revoke it for the linger period only |
| `Revocations.RestartForgets` | crates/portl-agent/src/revocations.rs:58-84 | without one in a file that loads a restart just before T forgets the id and learns no other |
| `Revocations.BatchGuards` | crates/portl-agent/src/revocations.rs:120-169 | a batch that succeeds guards the ids of its protecting records |
| `Revocations.StepKeepsDisk` | crates/portl-agent/src/revocations.rs:158-166 | a record in the file is lost before its time exactly when the agent overwrites the file and neither its memory nor the batch has such a record |
| `Revocations.TakeOverGuards` | crates/portl-agent/src/revocations.rs:215-239 | a record that only the file has guards its id from the next sync or start of a file that loads, if no write of the agent came before |
| `Revocations.AppendWhileDownGuards` | crates/portl-agent/src/revocations.rs:309-364 | a record appended while the agent is down guards at once |
| `Revocations.OverwrittenAppendLost` | crates/portl-agent/src/revocations.rs:158-166 | a record that another process appends and a batch overwrites before the next sync is lost, in memory and file |
| `Revocations.AppendLostFromEmpty` | crates/portl-agent/src/revocations.rs:309-364 | such a run from an empty agent, for any two records with different ids |
| `Revocations.GuardedRejects` | crates/portl-agent/src/pipeline.rs:73-83 | while an id is guarded until the ticket's expiry, an offer with that ticket is rejected |
| `Revocations.RevokedForever` | crates/portl-agent/src/revocations.rs:58-277 | from a guarded state no offer with that ticket is ever accepted again, over every run of batches, insertions, collections with or without a successful write, syncs, outside appends, stops and starts |
| `Revocations.UnguardedAccepts` | crates/portl-agent/src/revocations.rs:58-285 | from a state that does not guard a ticket of an offer that passes every other stage, some run accepts the offer, unless another of its tickets is revoked |
| `Revocations.RevocationSet.constructor` | crates/portl-agent/src/revocations.rs:69-78 | the set holds the records read and their ids, and no sessions |
| `Revocations.RevocationSet.LoadWithMaxBytes` | crates/portl-agent/src/revocations.rs:58-84 | a start as specified: decoding, collection, and the write back that may fail |
| `Revocations.RevocationSet.InsertManual` | crates/portl-agent/src/revocations.rs:91-105 | a manual record without times is added if its id is new |
| `Revocations.RevocationSet.CancelAll` | crates/portl-agent/src/revocations.rs:160-166 | exactly the sessions under the ids are cancelled |
| `Revocations.RevocationSet.RetainKept` | crates/portl-agent/src/revocations.rs:250-277 | exactly the records to keep stay, in order |
| `Revocations.RevocationSet.InsertOne` | crates/portl-agent/src/revocations.rs:171-181 | a record with a new id is added and the sessions under it are cancelled |
| `Revocations.RevocationSet.SelectNovel` | crates/portl-agent/src/revocations.rs:124-144 | the records of a batch with new ids, in order, and their size; none if an id does not decode |
| `Revocations.RevocationSet.AppendBatchAtomic` | crates/portl-agent/src/revocations.rs:120-169 | the batch as specified: checks, one write, then memory and cancellations |
| `Revocations.RevocationSet.CancelLiveSessions` | crates/portl-agent/src/revocations.rs:279-285 | exactly the sessions under the id are cancelled |
| `Revocations.RevocationSet.CollectGarbage` | crates/portl-agent/src/revocations.rs:250-277 | exactly the records to keep stay, in order, with their ids |
| `Revocations.RevocationSet.ReloadFromDisk` | crates/portl-agent/src/revocations.rs:215-239 | memory becomes the file's records; new ids cancel their sessions |
| `Revocations.RevocationSet.RegisterLiveSession` | crates/portl-agent/src/revocations.rs:183-195 | the session is entered under every id of its chain |
| `Revocations.RevocationSet.DeregisterLiveSession` | crates/portl-agent/src/revocations.rs:197-209 | the session leaves every id of its chain and empty entries go |
| `UdpRegistry.AttachOrCreateInv` | crates/portl-agent/src/udp_registry.rs:84-139 | a request keeps the registry's invariant, and keeps the counters exact exactly when it is not a re-attach that the quota refuses |
| `UdpRegistry.RequestMeaning` | crates/portl-agent/src/udp_registry.rs:84-139 | exactly when each error is reported, and otherwise which session is granted, with what owner, binds and connection |
| `UdpRegistry.RequestFrame` | crates/portl-agent/src/udp_registry.rs:84-139 | a request touches no other session |
| `UdpRegistry.CloseMeaning` | crates/portl-agent/src/udp_registry.rs:370-388 | the last control stream detaches its session until the end of the linger period; another leaves it attached with one less |
| `UdpRegistry.MarkLingerInv` | crates/portl-agent/src/udp_registry.rs:159-172 | the end of a control stream keeps the invariant and the exact counters |
| `UdpRegistry.GcExpiredInv` | crates/portl-agent/src/udp_registry.rs:174-189 | a collection keeps both; expired sessions are never counted |
| `UdpRegistry.StepTracked` | crates/portl-agent/src/udp_registry.rs:410-443 | a step keeps every session's count of open control streams exactly when it is neither a refused re-attach nor a shutdown under open streams |
| `UdpRegistry.RunInv` | crates/portl-agent/src/udp_registry.rs:84-267 | in every run a counter is never zero, never above 16 and never above the number of attached sessions; connection, missing deadline and active controls coincide for every session |
| `UdpRegistry.RunTracked` | crates/portl-agent/src/udp_handler.rs:136-170 | runs without those steps keep counters and stream counts exact |
| `UdpRegistry.ReachableExact` | crates/portl-agent/src/udp_registry.rs:84-189 | from an empty registry such runs give exact counters within the quota, and a session lingers exactly when its last control stream has ended |
| `UdpRegistry.RemovedOnlyExpired` | crates/portl-agent/src/udp_registry.rs:141-189 | before a shutdown a session goes only once its deadline has passed, and its owner never changes |
| `UdpRegistry.SurvivesLinger` | crates/portl-agent/src/udp_registry.rs:159-189 | a live session survives every run of the next linger period with its owner |
| `UdpRegistry.RefusedReattachAttaches` | crates/portl-agent/src/udp_registry.rs:108-121 | every refused re-attach leaves the connection one session above its quota, uncounted |
| `UdpRegistry.QuotaGap` | crates/portl-agent/src/udp_registry.rs:108-121 | a run from the empty registry that reaches such a re-attach |
| `UdpRegistry.UdpSessionRegistry.constructor` | crates/portl-agent/src/udp_registry.rs:73-82 | a new registry is empty |
| `UdpRegistry.UdpSessionRegistry.AttachOrCreateSession` | crates/portl-agent/src/udp_registry.rs:84-139 | the request as specified, with every error case and the state it leaves |
| `UdpRegistry.UdpSessionRegistry.Insert` | crates/portl-agent/src/udp_registry.rs:128-138 | a new session is counted, or the quota refuses it |
| `UdpRegistry.UdpSessionRegistry.FindLive` | crates/portl-agent/src/udp_registry.rs:141-157 | the session if it is there and has not expired; an expired one is removed |
| `UdpRegistry.UdpSessionRegistry.MarkLingerIfCurrent` | crates/portl-agent/src/udp_registry.rs:159-172 | a control stream less, or the session detaches, lingers and is no longer counted |
| `UdpRegistry.UdpSessionRegistry.CollectExpired` | crates/portl-agent/src/udp_registry.rs:174-189 | exactly the expired sessions go and the counters stay |
| `UdpRegistry.UdpSessionRegistry.ShutdownAll` | crates/portl-agent/src/udp_registry.rs:199-211 | nothing is left |
| `UdpRegistry.UdpSessionRegistry.RemoveSessionLocked` | crates/portl-agent/src/udp_registry.rs:227-234 | the session goes, and is uncounted if it was attached |
| `UdpRegistry.UdpSessionRegistry.IncrementConnectionSessions` | crates/portl-agent/src/udp_registry.rs:250-256 | one more |
| `UdpRegistry.UdpSessionRegistry.DecrementConnectionSessions` | crates/portl-agent/src/udp_registry.rs:258-267 | one less, and no zero entry |
| `HerdrWire.ParseVarintIff` | crates/portl-core/src/herdr_wire.rs:835-877 | a length is parsed exactly when its canonical encoding, the shortest, stands there |
| `HerdrWire.DecodeTagPrefixIff` | crates/portl-core/src/herdr_wire.rs:777-797 | a tag is decoded exactly from the canonical encoding of a 32-bit number |
| `HerdrWire.TagIsCanonical` | crates/portl-core/src/herdr_wire.rs:816-833 | the tag decoder accepts exactly the canonical encoding |
| `HerdrWire.ClipboardImageIff` | crates/portl-core/src/herdr_wire.rs:879-923 | a payload is accepted exactly when it is the canonical encoding of tag 2, a UTF-8 extension and data within the limit |
| `HerdrWire.ClipboardImageUnique` | crates/portl-core/src/herdr_wire.rs:835-923 | different images have different encodings |
| `HerdrWire.CutShort` | crates/portl-core/src/herdr_wire.rs:671-775 | a stream that ends anywhere inside a frame is reported as cut short |
| `HerdrWire.ReadFrameIff` | crates/portl-core/src/herdr_wire.rs:671-755 | the reader returns a frame exactly when the stream goes on with that frame, within the limits, and its permits and memory are granted |
| `HerdrWire.ReadFrameSome` | crates/portl-core/src/herdr_wire.rs:671-755 | a returned frame is exactly the bytes consumed |
| `HerdrWire.StreamMeaning` | crates/portl-core/src/herdr_wire.rs:671-755 | for every stream the frames read make up the bytes consumed, and the end is reported exactly when nothing is left |
| `HerdrWire.StreamRoundTrip` | crates/portl-core/src/herdr_wire.rs:671-755 | frames written one after another are read back as they are, then the end of the stream |
| `HerdrWire.FramingUnique` | crates/portl-core/src/herdr_wire.rs:671-755 | the bytes of a stream can be cut into frames in at most one way |
| `HerdrWire.ValidateRawFrameIff` | crates/portl-core/src/herdr_wire.rs:559-637 | a byte slice passes exactly when it is one tagged frame within the default limits, and its tag is then read correctly |
| `HerdrWire.ReadFramesAreValid` | crates/portl-core/src/herdr_wire.rs:671-755 | whatever the reader returns under limits no wider than the default passes as a raw frame with the same tag |
| `HerdrWire.Connection.Read` | crates/portl-core/src/herdr_wire.rs:757-775 | a read delivers between one and as many bytes as asked for, in order, or the end or the error of the stream |
| `HerdrWire.Connection.ReadExactCounted` | crates/portl-core/src/herdr_wire.rs:757-775 | under any pattern of short reads: exactly the next bytes, or the error with the count of bytes got |
| `HerdrWire.Connection.ReadHerdrFrame` | crates/portl-core/src/herdr_wire.rs:671-755 | under any pattern of short reads: the result and the position are those of the specification, which sees the bytes only |
| `HerdrWire.Connection.ReadTag` | crates/portl-core/src/herdr_wire.rs:691-712 | the same for the part from the tag on |
| `HerdrWire.Connection.ReadBody` | crates/portl-core/src/herdr_wire.rs:713-755 | the same for the part from the limits on |
| `HerdrWire.Connection.AcceptFrame` | crates/portl-core/src/herdr_wire.rs:745-755 | a frame that is all there is returned, unless it is a clipboard image that does not pass |
| `HerdrBudget.WantsIff` | crates/portl-core/src/herdr_wire.rs:677-729 | a read asks for a number of permits exactly when, refused them, it fails for want of that many |
| `HerdrBudget.FrameWanted` | crates/portl-core/src/herdr_wire.rs:713-729 | where the stream goes on with a frame, exactly its bytes are asked for, from the pool of its direction and tag |
| `HerdrBudget.ReadsWhatItWanted` | crates/portl-core/src/herdr_wire.rs:713-755 | a frame that is returned has as many bytes as were asked for and a tag of that pool |
| `HerdrBudget.StepBalanced` | crates/portl-core/src/herdr_wire.rs:713-755 | every step of a read, its end, its cancellation, a clone or a drop keeps permits left, permits of reads and bytes of live frames at the pool's capacity |
| `HerdrBudget.PermitsReturn` | crates/portl-core/src/herdr_wire.rs:440-452 | permits come back exactly when a read fails or the last clone of a frame is dropped |
| `HerdrBudget.RunConserves` | crates/portl-core/src/herdr_wire.rs:440-452 | the same for every run, with every live frame holding as many permits as it has bytes, from the pool of its tag |
| `HerdrBudget.BudgetConserved` | crates/portl-core/src/herdr_wire.rs:44-80 | over every run of a fresh budget all that holds, the frames alive in a pool never exceed its capacity, and an idle budget is whole |
| `HerdrBudget.TooLargeNeverGranted` | crates/portl-core/src/herdr_wire.rs:718-729 | a frame larger than the pool of its tag is refused in every reachable state |
| `HerdrBudget.EnoughPermitsServe` | crates/portl-core/src/herdr_wire.rs:671-755 | with enough permits left in the pool of its tag the next frame of a stream is read and kept |
| `Migration.StepInv` | crates/portl-core/src/paths.rs:440-503 | every file-system call and every stop keeps the invariant of the migration |
| `Migration.NothingLost` | crates/portl-core/src/paths.rs:440-503 | at every moment of every run the whole of each file is at its legacy place or at its destination |
| `Migration.NothingReplaced` | crates/portl-core/src/paths.rs:440-503 | a destination that exists is never replaced, changed or removed |
| `Migration.NeverPartial` | crates/portl-core/src/paths.rs:456-495 | a destination made during a run holds the whole of a file that was to go there, even when copies stop halfway |
| `Migration.MovedOnce` | crates/portl-core/src/paths.rs:440-454 | at most one move into each destination reports that it moved the file |
| `Migration.MovedMeansMoved` | crates/portl-core/src/paths.rs:440-503 | a move that reports success has left nothing at the legacy place and everything at the destination |
| `Migration.ServedMoveMoves` | crates/portl-core/src/paths.rs:440-454 | with its file there and its destination free, a move whose calls are served reaches that report |
| `Migration.ServedCopyMoves` | crates/portl-core/src/paths.rs:456-495 | the same across devices |
| `Gateway.ReadInitialHeaders` | crates/portl-agent/src/gateway.rs:130-156 | the byte-by-byte loop returns what the specification says, in every case |
| `Gateway.ReadHeadersIff` | crates/portl-agent/src/gateway.rs:130-156 | the reader returns exactly the shortest prefix that ends with a blank line, if it has at most 65536 bytes |
| `Gateway.RequestLineIff` | crates/portl-agent/src/gateway.rs:229-243 | a request line passes exactly when it is a method, a target and HTTP/1.1, one space apart |
| `HeaderRewrite.RewriteRequestHeaders` | crates/portl-agent/src/gateway.rs:178-206 | the loop over the lines computes the specified rewrite, with every error case |
| `HeaderRewrite.KeepLines` | crates/portl-agent/src/gateway.rs:193-203 | exactly the kept lines are written, in order |
| `Gateway.RewriteMeaning` | crates/portl-agent/src/gateway.rs:178-206 | after the unchanged request line come one authorization, one connection, the block's other non-blank lines byte for byte in order, and one blank line, the last |
| `GatewayBlock.WholeBlockIff` | crates/portl-agent/src/gateway.rs:178-206 | the whole block, cut at every line feed, has exactly one authorization, one connection and one blank line, the last, exactly when the request line has none of them between bare line feeds |
| `GatewayBlock.PlainRequests` | crates/portl-agent/src/gateway.rs:229-243 | a method without a colon and a request line without inner line feeds meet that condition |
| `GatewayBlock.LineWithinAccepted` | crates/portl-agent/src/gateway.rs:130-156 | the reader returns and the rewrite accepts a request line with a line of its own between bare line feeds |
| `GatewayBlock.LineWithinKept` | crates/portl-agent/src/gateway.rs:178-243 | that line comes out as a line of the rewritten block, so an authorization or connection there makes the count wrong |
| `Gateway.RewriteIdempotent` | crates/portl-agent/src/gateway.rs:178-206 | rewriting a rewritten block with the same bearer changes nothing |
| `Gateway.ReadBlocksRewrite` | crates/portl-agent/src/gateway.rs:158-176 | no block that the reader returns fails by slicing out of range: it is rewritten exactly when the request line and the bearer are valid |
| `PairCode.Base32RoundTrip` | crates/portl-core/src/pair_code.rs:154-167 | base32 text in any case decodes to the bytes it was made of |
| `PairCode.DecodeBytesIff` | crates/portl-core/src/pair_code.rs:168-208 | bytes decode to an invite exactly when they start with the bytes of that invite, of version 1 with a hint absent or not empty |
| `PairCode.RoundTripIff` | crates/portl-core/src/pair_code.rs:137-209 | an encoded invite, with white space around it and its body in any case, decodes to itself exactly when it is of version 1 and its hint is absent or not empty |
| `PairCode.RoundTrip` | crates/portl-core/src/pair_code.rs:137-209 | the same for the code as encoded; encoding fails exactly for hints over 255 bytes |
| `PairCode.EmptyHintLost` | crates/portl-core/src/pair_code.rs:192-200 | an empty hint comes back as none |
| `Watchdog.CommandsArePaid` | crates/portl-agent/src/network_watchdog.rs:289-332 | in every run each refresh asked for has had its own failed probes, as many as the threshold |
| `Watchdog.NoCommandWithinBackoff` | crates/portl-agent/src/network_watchdog.rs:313-332 | while a backoff is in force and no good news comes, no refresh is asked for, whatever comes between the parts of a turn |
| `Watchdog.BackoffHolds` | crates/portl-agent/src/network_watchdog.rs:187-207 | after the k-th failed refresh in a row no refresh is asked for within the backoff for k, over every run without good news |
| `Watchdog.BackoffGrows` | crates/portl-agent/src/network_watchdog.rs:502-509 | the backoff never shrinks with more failures and lies between five minutes and an hour |
| `Watchdog.RunNumbered` | crates/portl-agent/src/network_watchdog.rs:173-185 | the generation is one more than the number of refreshes that succeeded, until the counters stick |
| `Watchdog.OneAtATimeIff` | crates/portl-agent/src/network_watchdog.rs:289-332 | a run from a start has at most one refresh in flight throughout exactly when none is asked for beside another |
| `Watchdog.OneAtATime` | crates/portl-agent/src/network_watchdog.rs:289-332 | a run from a start without a handshake during a refresh has at most one refresh in flight throughout |
| `Watchdog.RunSingle` | crates/portl-agent/src/network_watchdog.rs:289-332 | without such handshakes a refresh is in flight exactly in the refreshing state, only one is, and no turn is under way then |
| `Watchdog.FailedTurnsAsk` | crates/portl-agent/src/network_watchdog.rs:289-332 | as many failed turns as are missing to the threshold ask for a refresh |
| `Watchdog.SecondRefresh` | crates/portl-agent/src/network_watchdog.rs:134-142 | for every threshold a run from a start, with a handshake during a refresh, that has two refreshes in flight |
| `Watchdog.NetworkWatchdogHealth.constructor` | crates/portl-agent/src/network_watchdog.rs:103-120 | a new record is healthy, of generation one |
| `Watchdog.NetworkWatchdogHealth.SetDisabled` | crates/portl-agent/src/network_watchdog.rs:129-132 | the state is disabled |
| `Watchdog.NetworkWatchdogHealth.BeginTurn` | crates/portl-agent/src/network_watchdog.rs:293-300 | a turn probes unless a refresh is on its way or a handshake came in lately |
| `Watchdog.NetworkWatchdogHealth.ApplyProbeOutcome` | crates/portl-agent/src/network_watchdog.rs:243-256 | the outcome is recorded, and calls for a refresh exactly at the threshold |
| `Watchdog.NetworkWatchdogHealth.Decide` | crates/portl-agent/src/network_watchdog.rs:318-332 | the command is sent exactly when called for and no backoff is in force |
| `Watchdog.NetworkWatchdogHealth.RecordInboundHandshake` | crates/portl-agent/src/network_watchdog.rs:134-142 | a handshake clears failures and backoff |
| `Watchdog.NetworkWatchdogHealth.RecordProbeSuccess` | crates/portl-agent/src/network_watchdog.rs:144-152 | so does a probe that succeeds |
| `Watchdog.NetworkWatchdogHealth.RecordProbeFailure` | crates/portl-agent/src/network_watchdog.rs:154-165 | a failure is counted, saturating, and a failed state stays |
| `Watchdog.NetworkWatchdogHealth.RecordEndpointRefreshStarted` | crates/portl-agent/src/network_watchdog.rs:167-171 | the count of failed probes restarts |
| `Watchdog.NetworkWatchdogHealth.RecordEndpointRefreshSuccess` | crates/portl-agent/src/network_watchdog.rs:173-185 | a new generation with everything cleared |
| `Watchdog.NetworkWatchdogHealth.RecordEndpointRefreshFailure` | crates/portl-agent/src/network_watchdog.rs:187-199 | the failure is counted and its backoff set |
| `Calendar.YearOfEraBounds` | crates/portl-core/src/diagnostics.rs:266-283 | the year of the era is the one whose days contain the day, on every day of the era |
| `Calendar.MarchYearCorrect` | crates/portl-core/src/diagnostics.rs:266-283 | year and day of the March-based year add up to the day number |
| `Calendar.CivilFromDaysCorrect` | crates/portl-core/src/diagnostics.rs:266-283 | the date is valid and has that day number in a calendar defined by leap years and month lengths |
| `Calendar.WithFullYearCorrect` | crates/portl-core/src/diagnostics.rs:266-283 | without the truncation of the year the result is the valid date-time of that second, for every 64-bit second |
| `Calendar.SecondsMonotone` | crates/portl-core/src/diagnostics.rs:266-283 | later valid date-times have more seconds |
| `Calendar.SecondsInjective` | crates/portl-core/src/diagnostics.rs:266-283 | two valid date-times with the same seconds are the same |
| `Calendar.UnixToYmdhmsCorrect` | crates/portl-core/src/diagnostics.rs:266-283 | the result is the one valid date-time of that second exactly when its year fits 32 bits |
| `Calendar.FirstUnrepresentableExists` | crates/portl-core/src/diagnostics.rs:266-283 | the first second of the year 2^32 is a 64-bit second, and the result does not name it |
| `Calendar.UnixToYmdhmsMonotone` | crates/portl-agent/src/status_schema.rs:330-347 | later seconds give later date-times |

## Left out

- Signatures, hashes, ticket serialisation and the bodies of Herdr messages: foreign code, taken as arbitrary functions.
- Minting tickets and the holder's own verification of a chain in crates/portl-core/src/ticket: the agent's verification is the one modelled.
- Rate limiting: one boolean of an offer's input.
- Stream handlers, sockets, DNS lookups, QUIC connections and their priorities: input and output.
- The pairing handler and the JSON stores: with whole-method steps their invariants would only add easy members.
- Command line, configuration, metrics, logging, log rotation, redaction, relays, and the Docker and Slicer adapters: not part of this model.
- The filters' high-water marks: bookkeeping that nothing else reads.
- Interleavings of the UDP registry finer than one method: each method is one step, as if it held the registry's lock throughout.
- Control streams whose response could not be written never report their end; the model keeps counting them as open.
- UDP sessions are values in the registry's map, not shared objects; their sockets, source tags and reply tasks are not modelled, and deadlines are unbounded numbers.
- Waiting order and timeouts of the byte budget: a request is granted or not, and time passes outside the model.
- Read buffers are sequences that grow, not slices that are filled in place.
- `BincodeTag` follows the documented variable-length format of bincode for 32-bit numbers; that library is not part of the repository, and neither is the base32 library, which is modelled by section 6 of RFC 4648 with letters of either case.
- Migration of directories, a destination directory that is removed meanwhile, and programs other than migrators that write to the files. That legacy names, destinations and temporary names differ, and that a file has one destination, is part of the model's types.
- The watchdog's self-probe, its jitter, fractions of seconds, the end of its loop when the command channel is closed, and anything between its look at the backoff and the start of the refresh, which are one step.
- The file format of revocations: records are written and read as values, and a file that does not parse is not distinguished from one that cannot be read.
