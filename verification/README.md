# Verified model of the proxy userbot

The userbot mirrors messages, albums, replies, edits, deletions and reactions between pairs of Telegram
groups, using one of several accounts at a time according to a daily shift schedule. This project models
the parts of it whose correctness spans several functions or whole runs, and proves what they keep. To
verify it, run `dafny verify dfyconfig.toml` with Dafny 4.11.

## How the model is organised

- **Schedule.** `TimeOfDay` (the two readings of "HH:MM"), `Intervals` (intervals round the clock, the
  notion of a tiling), `ScheduleValidation` (the 1440-slot coverage array), `Tiling` (the round a tiling
  makes), `Shifts` (who is on duty, when the next switch comes), `SchedulerLoop` (connect, wait,
  disconnect).
- **Relay.** `Pairs` (validation of pairs, routing map), `MessageStore` (the append-only mapping table and
  its two lookups), `Retry` (back-off, flood wait, nested downloads), `Updates` (ids in send responses),
  `Relay` (the effect of each event, as functions), `Bridge` (the handlers as methods of the bridge
  object, proved equal to those functions), `RelayWorld` (the chats, with sender, body, edit history and
  reply edge of every post, and the steps of users, Telegram and the relay), `RelayInvariant` and
  `RelayTheorems` (every step keeps the invariant). `RelayOutcomes` says what becomes of each single event.
  What follows for whole runs is in `RelayResults` (loop freedom, pairs, disabling), `RelayReplies`,
  `RelayTexts`, `RelayDeletes` and `RelayAlbums`.
  `RelayTraffic` cuts the handlers into pieces, `RelayPieces` proves that a handler left alone is the sequence
  of its pieces, `RelayMoves` that each piece keeps the invariant, `RelayInterleaving` what follows for every
  interleaving, and `RelayInFlight` what interleaving costs.
- **Reactions.** `Reactions` (canonical lists, cache), `ReactionMirroring` (runs of reaction events, new
  rows and evictions), `ReactionEcho` (the account's own reaction coming back as an event).
- **Albums.** `AlbumBuffer` (handlers, timers and flushes as interleaved atomic steps), `AlbumDelivery`
  (what every interleaving guarantees), `AlbumHandlers` (the code of a handler and of a flush, proved to
  be those steps without interference), `AlbumConvert` and `Entities` (from buffered messages to the
  event, and text formatting there and back).
- `Common` holds optional values and facts about permutations.

Answers of Telegram, storage faults, cancellations, clock readings and interleavings are inputs, and the
theorems hold for all of them. The assumptions that the code itself forces are written as `requires`
clauses, in `RelayWorld.Enabled` or in `RelayTraffic.CanMove`: one account (`selfID`) for the whole run, because the filter compares
with the current account only (`RelayResults.OtherAccountRelaysMirrors` says what another account does);
ids of new messages are fresh and positive; events tell the truth about some version of the posts they are
about, not necessarily the newest; only the relay edits the account's own posts; all messages of an album
carry the same reply header; a successful response names, first of all, messages that the call created.
Id 0 is recorded when no id could be read from a response, so uniqueness of targets is about ids other
than 0.

## Where the code does less than it says

- `withRetry` (internal/bridge/sender.go:22) promises that a CHAT_WRITE_FORBIDDEN answer is reported as such
  and not retried; internal/bridge/sender.go:20-21 announces that whatever the one call after a flood wait
  returns is passed on. Where both apply the second wins, and the pair stays enabled:
  `Retry.ForbiddenIsReportedUnlessAfterFlood` says for which inputs, `Retry.ForbiddenAfterFloodHappens` gives
  one.
- cmd/userbot/main.go:336-337 relies on validated times being readable by the clock layout. The validator
  accepts, for instance, "8:5", which the layout refuses and which then counts as 00:00:
  `Shifts.SwallowedShift` shows an accepted schedule with one account always on duty, and
  `Shifts.AcceptedScalesIffPlain` says which accepted schedules arrive unchanged.
- ARCHITECTURE.md:113-117 says that an account continues from its BoltDB file at each shift change. The
  handle is closed by the first disconnect and never opened again:
  `SchedulerLoop.ReconnectFindsStoreClosed`, and `SchedulerLoop.ReconnectHappens` for a run.
- README.md:178 of the repository asks for a restart after the account was removed from a chat. Each connect
  builds a new bridge, so a shift change re-enables the pair as well: a pair is disabled exactly until the
  next reconnect (`RelayResults.DisabledUntilReconnect`). It also empties the cache of reactions.
- README.md:41 of the repository says that emoji reactions are mirrored. The account's own reaction comes
  back as an event on the mirror and is added to the original, where it outlives the user's reaction:
  after the echo has settled only additions are relayed (`ReactionEcho.RelayReactionsStick`). After the set of
  a message was evicted, the removal of all its reactions is not relayed, while any other change is
  (`ReactionMirroring.EvictionHidesTotalRemoval`). And a nonempty set reported before the row of its message
  is saved is not shown until a different set is reported (`ReactionMirroring.EarlyReactionHidesRepetition`).
- README.md:183 of the repository says that a split album still delivers all media. A handler that obtains
  the buffer before a flush takes it and appends after it was copied loses its message:
  `AlbumDelivery.LossIsLateAppend`, `AlbumDelivery.LossHappens`; the exact condition for nothing to be lost is
  `AlbumDelivery.AllDeliveredIffGapless`.
- If the response to an album names a message twice, later items are recorded against wrong mirrors:
  `Updates.AlbumIdsMatch` and `RelayAlbums.AlbumStaysCleanIffNamedApart` give the exact conditions.
- An album none of whose messages carries supported media reaches the handler without items and makes it
  panic on the first of no options; the dispatcher recovers. `RelayAlbums.PanicsExactlyWithoutMedia` gives
  the exact condition, `RelayAlbums.PanicHappens` an input.
- Albums are handled by the goroutines of their timers (internal/tg/client.go:583), beside the dispatcher. An
  edit of an album item, which can only be one of its caption or media, and a deletion of it are lost if they
  are processed after the album was sent and before the row of the item is saved, and would be relayed after
  that: `RelayInFlight.EditInFlightIsLost`, `RelayInFlight.DeletionInFlightIsLost`, and `RelayInFlight.LossHappens`
  for a run. For messages that the dispatcher handles the same would need a second event of the same chat to
  be dispatched before the first has returned.
- internal/bridge/bridge.go:108-109 says that relaying is skipped for disabled pairs. An album that is past its
  guards when its pair is disabled is sent all the same: `RelayInFlight.DisabledPairStillSends`, and
  `RelayInFlight.DisabledInFlightHappens` for a run.
- The message is sent before its row is saved. A redelivered event is therefore sent again; what is unique
  is the row.

## Model

| member | source | states |
|---|---|---|
| TimeOfDay.ReadsExactly | internal/config/validate.go:150-164 | Every string without a colon is refused as such; every other one is read if and only if the parts before and after the first colon are decimal numbers below 24 and 60, and then as their sum in minutes |
| TimeOfDay.AtoiExactly | internal/config/validate.go:150-164 | An integer is one or more digits, alone or after one sign, and has their value or, after a minus, its negation; nothing else is one |
| TimeOfDay.DigitsJoin | internal/config/validate.go:150-164 | Digits are read in positional notation, for strings of any length |
| TimeOfDay.UsualFormIsRead | internal/config/validate.go:150-164 | Every minute of the day, written with two digits, a colon and two digits, is read back as itself by the validator and by the conversion for the scheduler |
| TimeOfDay.DurationAgrees | cmd/userbot/main.go:338-341 | A time that passes validation becomes the same duration if and only if it has an hour of one or two plain digits and a minute of two, or means midnight anyway |
| TimeOfDay.ClockReadsExactly | cmd/userbot/main.go:338-341 | The clock layout reads exactly the plain forms that the validator reads, to the same value; every other string counts as midnight |
| ScheduleValidation.MarkRange | internal/config/validate.go:113-129 | One marking loop fills exactly its range, or stops at the first slot already taken, which it names |
| ScheduleValidation.MarkShift | internal/config/validate.go:107-135 | After a shift is marked, every slot names the one shift over its minute; a conflict names a minute that both shifts contain |
| ScheduleValidation.CheckCoverage | internal/config/validate.go:102-144 | Marking accepts only lists whose shifts have different ends and cover every minute exactly once; each complaint is true |
| ScheduleValidation.ComplaintRefutes | internal/config/validate.go:54-147 | No complaint can be raised against a good list of shifts, so rejection is always right |
| ScheduleValidation.ValidateSchedule | internal/config/validate.go:54-147 | Accepts if and only if the time zone is usable and, with several accounts, phones and times are fine and every one of the 1440 minutes lies in exactly one shift; every complaint, including the two shifts and the minute of an overlap, is true |
| ScheduleValidation.GoodExactly | internal/config/validate.go:54-147 | Spelled out: the time zone is not blank and known, and with any number of accounts other than one there are shifts, each of a known phone with readable, different times, and every minute lies in exactly one, counted round midnight |
| ScheduleValidation.BlankIffTrimmedAway | internal/config/validate.go:55 | A string is blank exactly if trimming white space on both sides leaves nothing; the empty one is |
| Tiling.HandoffMeets | internal/scheduler/scheduler.go:183-195 | Where a shift ends, another one begins in the same minute |
| Tiling.DailyRound | internal/config/validate.go:102-144 | Handing over from any shift visits all shifts exactly once and is back at the first exactly 24 hours later, for any number of shifts |
| Tiling.LengthsFillTheDay | internal/config/validate.go:102-144 | The lengths of the shifts add up to 1440 minutes |
| Tiling.OneOvernightShift | internal/scheduler/scheduler.go:176-179 | Exactly one shift wraps midnight: the one of the last minute of the day |
| Shifts.ActiveShift | internal/scheduler/scheduler.go:167-207 | The search loop yields the first active shift and its end, or the first shift and its next start, as specified by Chosen |
| Shifts.ChosenExactly | internal/scheduler/scheduler.go:167-207 | For any list with times of day, tiling or not: the first active shift of the list until its end comes next, equal ends included; without one, the first shift until its start comes next |
| Shifts.NextAtUnique | internal/scheduler/scheduler.go:183-207 | At most one instant is the next one at a given time of day |
| Shifts.ExactlyOneActive | internal/scheduler/scheduler.go:171-181 | On a tiling, exactly one shift is active at every instant, finer than minutes, so the fallback cannot be reached |
| Shifts.NextSwitchIsNext | internal/scheduler/scheduler.go:183-207 | The next switch is later than now by less than a day, nothing changes before it, and at that instant a different shift takes over, starting where the old one ends |
| Shifts.OneSwitch | internal/scheduler/scheduler.go:183-195 | From a shift start the next switch comes when the length of the shift has passed, at the start of the next shift |
| Shifts.SwitchesFollowWalk | internal/scheduler/scheduler.go:167-207 | Switching on from a shift start follows the round of the tiling, minute for minute |
| Shifts.SwitchesGoRoundDaily | internal/scheduler/scheduler.go:167-207 | After as many switches as there are shifts, every shift has been on duty once and the same shift starts exactly 24 hours later |
| Shifts.ConfigShiftsToScheduler | cmd/userbot/main.go:324-334 | Every configured shift is converted, in order, with its own two times |
| Shifts.AcceptedScalesIffPlain | cmd/userbot/main.go:324-341 | An accepted schedule reaches the scheduler as the tiling that was validated if and only if all its times are in plain form or mean midnight |
| Shifts.SwallowedShift | cmd/userbot/main.go:336-341 | A schedule with "8:5" that is accepted although the scheduler then never puts the second account on duty |
| SchedulerLoop.Client.Connect | internal/tg/client.go:354-427 | A connected client refuses; otherwise the client is marked connected exactly if dialling, session check and self lookup all succeed, and then knows its own id; a closed update store stays closed |
| SchedulerLoop.Client.Disconnect | internal/tg/client.go:434-484 | Whatever is reported, the client ends disconnected with its update store closed |
| SchedulerLoop.ClientController.Connect | internal/scheduler/orchestrator.go:38-61 | Succeeds exactly if the client comes online and the peers resolve, and then gives the client a new bridge for its id and the configured pairs, with no pair disabled and no reaction cached; after any failure the client is offline |
| SchedulerLoop.ServeShift | internal/scheduler/scheduler.go:118-151 | An account with a controller is connected exactly if that can succeed, with nobody else online, and everybody is offline afterwards |
| SchedulerLoop.TakeTurn | internal/scheduler/scheduler.go:103-152 | One turn connects the account on duty exactly if that can succeed, with nobody else online, and leaves everybody offline |
| SchedulerLoop.RunShifted | internal/scheduler/scheduler.go:101-154 | Over any turns with any failures: at most one account is online, nobody is at the loop head or on return, each connect is answered by exactly one disconnect before the next, the account is the chosen one, and no turn that could connect goes without |
| SchedulerLoop.ConnectedIsOnDuty | internal/scheduler/scheduler.go:101-154 | The account connected in a run is the one whose shift contains the clock reading |
| SchedulerLoop.ReconnectFindsStoreClosed | internal/tg/client.go:434-484 | A second connect of an account never finds its update store open |
| SchedulerLoop.ReconnectHappens | internal/scheduler/scheduler.go:101-154 | A run of the loop in which an account connects twice, the second time with its store closed |
| SchedulerLoop.Run247 | internal/scheduler/scheduler.go:82-98 | If connecting succeeds, exactly one connect and one disconnect of one account, and otherwise neither; nobody online at the end |
| Pairs.ValidatePairs | internal/config/validate.go:167-207 | Accepts if and only if there is a pair, every pair has a key and two different chats, and no two pairs share a key or a chat; every complaint is true |
| Pairs.GoodExactly | internal/config/validate.go:167-207 | Spelled out: at least one pair, no blank key, no chat 0, two different chats in each pair, and all keys and all chats different between pairs |
| Pairs.ComplaintRefutes | internal/config/validate.go:167-207 | No complaint can be raised against a good list of pairs |
| Pairs.BuildPairs | internal/bridge/bridge.go:48-63 | The map is the pairs entered one after the other under both chats |
| Pairs.RoutesAreExact | internal/bridge/bridge.go:48-63 | From accepted pairs the map has exactly two entries a pair, each with the data of its pair, and no others |
| Pairs.RoutesAreTwoSided | internal/bridge/bridge.go:48-63 | The partner of a chat is a different configured chat whose partner it is, within the same pair |
| MessageStore.Store.SaveMapping | internal/storage/postgres.go:97-117 | Appends the row unless one with the same source exists or a fault strikes first, and reports which |
| MessageStore.SaveFacts | internal/storage/postgres.go:97-117 | A row is added exactly if its source is new and no fault strikes before; failure is reported exactly for a fault before, or after a row was added; a duplicate exactly for a source that was there |
| MessageStore.Store.FindBySource | internal/storage/postgres.go:121-135 | Yields the first row with that source, or says that there is none |
| MessageStore.Store.FindByTarget | internal/storage/postgres.go:139-153 | Yields the first row with that target, or says that there is none |
| MessageStore.LookupsUnique | migrations/00001_init_message_mappings.sql:30-32 | In a clean table a row is the only answer to lookups by its own coordinates, and neither coordinate answers the other lookup |
| MessageStore.LookupOrdersAgree | internal/bridge/replies.go:32-50 | Looking up the other side target-first or source-first gives the same answer |
| MessageStore.OppositeTwice | internal/bridge/reactions.go:187-208 | The other side of the other side is the message itself |
| MessageStore.OppositeInjective | internal/bridge/reactions.go:187-208 | Two messages never have the same other side |
| MessageStore.OppositeStable | internal/storage/postgres.go:97-117 | A recorded other side never changes, whatever rows are added |
| Retry.WithRetry | internal/bridge/sender.go:24-63 | The attempt loop makes the calls and sleeps of the specification Retried |
| Retry.RetryFacts | internal/bridge/sender.go:24-63 | One to five calls; success exactly if the last call succeeded, with its value; the pair is given up exactly if the last call was answered with write-forbidden and no flood wait came before; no call after either; at most 7 s of back-off and one flood wait; failure only after four errors or one flood wait, and with the last error |
| Retry.AttemptDecides | internal/bridge/sender.go:28-62 | A reached attempt decides outcome, calls, back-off and flood waits, for each answer and cancellation; only an uncancelled other error before the fourth attempt decides nothing |
| Retry.SomeAttemptDecides | internal/bridge/sender.go:28-62 | For every input some reached attempt decides |
| Retry.ForbiddenIsReportedUnlessAfterFlood | internal/bridge/sender.go:42-59 | Every write-forbidden answer is reported as such if and only if no reached attempt meets a flood wait that is followed by write-forbidden; in that case it ends as an ordinary failure |
| Retry.ForbiddenAfterFloodHappens | internal/bridge/sender.go:46-59 | A flood wait answered by write-forbidden: an input for which it is not reported |
| Retry.DownloadWithRetry | internal/bridge/messages.go:287-305 | One to three downloads, success exactly if the last one worked and no earlier one did; without success fewer than three only after a cancelled wait |
| Retry.VoiceCost | internal/bridge/messages.go:187-305 | One relayed voice message costs at most 15 downloads, whatever fails |
| Retry.VoiceCostIsReached | internal/bridge/messages.go:187-305 | An input with 15 downloads |
| Retry.NoVoiceWithoutDownload | internal/bridge/messages.go:187-192 | If no download works, no voice message is sent, whatever the answers |
| Updates.ExtractMessageID | internal/bridge/messages.go:395-411 | The first id-bearing update decides; 0 and failure without one |
| Updates.ExtractAlbumMessageIDs | internal/bridge/messages.go:652-669 | All ids of id-bearing updates, in order |
| Updates.IdsGrow | internal/bridge/messages.go:652-669 | Exactly the three kinds of update bear an id, each its own, in the order of the list |
| Updates.AlbumIdsMatch | internal/bridge/messages.go:591-597 | Every item is matched with its own mirror if and only if the response names the mirrors in order, once each, before naming any again |
| Updates.DoubledIdsMisassign | internal/bridge/messages.go:652-669 | A response that names each message twice gives the first two items the same target |
| Bridge.Impl.ResolveReplyTarget | internal/bridge/replies.go:21-53 | Finds an id exactly if the replied-to message has a recorded other side; the id is that of the specification |
| Bridge.Impl.OnNewMessage | internal/bridge/messages.go:25-142 | Rows, disabled pairs, outgoing calls and result are those of the specification NewMessageEffect |
| Bridge.Impl.RecordAlbum | internal/bridge/messages.go:591-626 | Every item is saved on its own, the i-th against the i-th id or 0 |
| Bridge.Impl.OnAlbum | internal/bridge/messages.go:441-646 | Rows, disabled pairs, outgoing calls and result are those of the specification AlbumEffect |
| Bridge.Impl.OnMessageEdited | internal/bridge/edits.go:20-92 | At most one edit, of the recorded mirror, with the text, the entities converted back, the new media and the result of the specification |
| Bridge.Impl.OnMessageDeleted | internal/bridge/edits.go:103-186 | The calls are those of the batch, whatever fails, and exactly the successes are counted |
| Bridge.SuccessesCount | internal/bridge/edits.go:164-180 | The count is the number of calls whose answer is acceptance |
| Bridge.Impl.LookUpMirror | internal/bridge/reactions.go:187-208 | The source-first lookup of the mirror, with either lookup failing |
| Bridge.Impl.CurrentSet | internal/bridge/reactions.go:91-103 | The strictly increasing list of exactly the standard emoji of the event |
| Bridge.Impl.OnReactions | internal/bridge/reactions.go:89-159 | The cache takes the new set and the time of the event in any case, and no other entry changes; a call is made exactly if the set changed and the mirror is known and reachable, and it carries the new set |
| Relay.BodyRoundTrip | internal/bridge/messages.go:158-181 | A text goes through the bridge unchanged, with the formatting that survives relaying |
| RelayOutcomes.MessageOutcome | internal/bridge/messages.go:25-142 | For every message: the number of calls, the pair disabled exactly by a reported write-forbidden answer, the complete row added exactly if its send succeeded, its save did not fail before and its source is new, and when an error is reported |
| RelayOutcomes.AlbumOutcome | internal/bridge/messages.go:441-646 | For every album: the same; a reported write-forbidden answer disables the pair and is not an error; failed saves are not reported |
| RelayOutcomes.AlbumRows | internal/bridge/messages.go:591-626 | Every new item of a sent album has its complete row, marked with the group, unless its own save fails before |
| RelayOutcomes.EditOutcome | internal/bridge/edits.go:20-92 | For every edit: an error is reported exactly for a failed lookup or a refused call, not for an unmodified or vanished mirror |
| RelayOutcomes.ReplyIdExactly | internal/bridge/replies.go:21-53 | The id of a reply for every combination of failing lookups |
| RelayInvariant.ReplyIsOpposite | internal/bridge/messages.go:65-77 | An id used for a reply belongs to the chat sent into and names the other side of the message replied to |
| RelayInvariant.PlainExactlyWithoutOpposite | internal/bridge/messages.go:538-560 | With working lookups a reply is sent plain exactly when no known other side is recorded |
| RelayTheorems.StepKeeps | internal/bridge/messages.go:25-142 | Every step of users, Telegram or the relay, a reconnect included, keeps the invariant on rows, posts, reply edges and texts |
| RelayTheorems.RunKeeps | internal/bridge/messages.go:25-142 | So does every run of such steps |
| RelayInterleaving.MoveKeeps | internal/tg/client.go:606-626 | The invariant, extended to handlers under way, is kept by each piece of a handler (guards, each lookup, each call, each save, of messages, albums, edits and deletions) and by everything that may come between |
| RelayInterleaving.InterleavingIsSafe | internal/bridge/messages.go:441-646 | Under every interleaving sources and known targets stay unique and disjoint, mirrors reply to counterparts, and every live, known mirror of a text message shows a version of its source, and the newest unless an edit is unprocessed, failed or lost |
| RelayInterleaving.FlagInInterleavedRun | internal/bridge/edits.go:44-80 | Under every interleaving, being up to date is exactly having relayed the newest version last |
| RelayMoves.LateEditIsFresh | internal/bridge/edits.go:34-67 | An edit call does to the chats what handling the edit at the time of the call would do, although its guards and lookup may lie far back |
| RelayMoves.LateDeleteIsFresh | internal/bridge/edits.go:125-162 | So does a delete call |
| RelayPieces.WholeIsItsPieces | internal/bridge/messages.go:25-142 | Every handler of a message, album, edit or batch that runs undisturbed is a run of its pieces, whatever else is under way |
| RelayInFlight.EditInFlightIsLost | internal/bridge/edits.go:34-42 | An edit processed between the send of its message and the save of its row causes no call and no change, the row then leads to a mirror with the content that was sent, and processed after the save the edit would have been relayed |
| RelayInFlight.DeletionInFlightIsLost | internal/bridge/edits.go:125-137 | So is a deletion: the mirror stays as it is, and processed after the save it would have been deleted |
| RelayInFlight.LossHappens | internal/tg/client.go:580-588 | A run from the empty state, with an album under way, in which both are lost |
| RelayInFlight.DisabledPairStillSends | internal/bridge/messages.go:448-453 | A message or album past its guards is sent although its pair was disabled meanwhile, while every event from the same chat causes no call |
| RelayInFlight.DisabledInFlightHappens | internal/bridge/messages.go:569-580 | A run that leads to such a send: two albums, of which one disables the pair |
| RelayResults.NoMirrorIsEverASource | internal/bridge/filter.go:26-35 | In every reachable state sources are unique, known targets are unique, and no known target is a source |
| RelayResults.MessageIsSentExactlyIf | internal/bridge/messages.go:25-89 | A message is sent, at most five times, if and only if it is foreign, its pair is configured and enabled, the partner chat is reachable and the delay is not cancelled; each time with its own body, to the partner chat |
| RelayResults.SentMessageIsRecorded | internal/bridge/messages.go:89-131 | A new message is recorded if and only if its send succeeded and saving did not fail beforehand, against the id in the response; a pair is disabled exactly by a reported write-forbidden answer |
| RelayResults.AlbumIsSentExactlyIf | internal/bridge/messages.go:441-588 | The same for albums, which also need items, all of them fetched |
| RelayResults.EditIsSentExactlyIf | internal/bridge/edits.go:20-80 | An edit is sent, once, to the mirror, with the new text, its entities and any new media, if and only if the message is foreign, recorded, and its pair enabled and reachable |
| RelayResults.MirrorEventsAreSilent | internal/bridge/filter.go:26-35 | New-message, album and edit events about any post of the account, recorded or not, cause no call and no change: the relay cannot loop |
| RelayResults.RecordedMirrorsAreSilent | internal/bridge/edits.go:16-19 | In particular events about recorded mirrors |
| RelayResults.OtherAccountRelaysMirrors | internal/bridge/filter.go:26-35 | A message event about a mirror, handled by an account, is relayed if and only if the mirror belongs to another account and nothing else stands in the way |
| RelayResults.CallsStayInPair | internal/bridge/edits.go:44-48 | Every call caused by an event in a chat goes to the partner of that chat |
| RelayResults.ReactionsStayInPair | internal/bridge/reactions.go:117-133 | The same for reactions, although their handler never consults the pairs |
| RelayResults.RunGrows | internal/storage/postgres.go:97-117 | No run takes back a row, or changes sender or reply edge of a post |
| RelayResults.DisabledUntilReconnect | internal/scheduler/orchestrator.go:43-60 | After any run a pair is disabled if and only if it was at the start, or a step disabled it, and no reconnect followed |
| RelayResults.DisabledPairIsSilent | internal/bridge/messages.go:32-38 | While a pair is disabled, its new-message, album, edit and delete events cause no call |
| RelayReplies.MirrorsReplyToCounterparts | internal/bridge/messages.go:65-77 | In every reachable state a mirror that replies replies to the other side of what its source replies to, albums included |
| RelayReplies.RelayCommutesWithReply | internal/bridge/replies.go:21-53 | With working lookups a recorded mirror replies to exactly the other side of what its source replied to, plain exactly if none is known, and no later step changes this |
| RelayReplies.AlbumCommutesWithReply | internal/bridge/messages.go:538-560 | The same for every newly recorded item of an album |
| RelayTexts.MirrorsShowTheirSource | internal/bridge/edits.go:20-92 | In every reachable state a live, known mirror of a text message shows some version of its source, and the newest whenever no edit of the source is unprocessed or failed |
| RelayTexts.FlagInRun | internal/bridge/edits.go:44-80 | Being up to date is exactly having relayed the newest version last, through every run |
| RelayTexts.EditCatchesUp | internal/bridge/edits.go:44-80 | An edit event with the newest version, accepted or reported as not modified, leaves the mirror with the current text of its source, whatever was missed before |
| RelayDeletes.OneDeletePerHit | internal/bridge/edits.go:125-180 | A batch makes exactly one call per occurrence of a known source with a reachable mirror, regardless of the others |
| RelayDeletes.DeletesInBatchOrder | internal/bridge/edits.go:125-180 | Each of these calls is the one for its own id, and they come in the order of the batch |
| RelayDeletes.HitExactlyIf | internal/bridge/edits.go:126-147 | An id leads to a call exactly if its lookup works and finds a row whose target chat is reachable, and then to the deletion of that target |
| RelayDeletes.MirrorIsDeletedExactlyIf | internal/bridge/edits.go:103-162 | A known mirror is deleted if and only if the batch is of a configured and enabled chat, on either side of the pair, and names its source with a working lookup, and the chat of the mirror is reachable |
| RelayDeletes.KnownSourceIsDeleted | internal/bridge/edits.go:103-162 | In particular every recorded source in a batch of such a chat is deleted on the other side, if all lookups work |
| RelayDeletes.PostDiesIffStruck | internal/bridge/edits.go:125-180 | A handled batch takes down a live post if and only if an accepted call is for a row that points at it, and changes nothing else of any post |
| RelayDeletes.MirrorDiesIffSourceDoes | internal/bridge/edits.go:125-180 | A live, known mirror dies if and only if the batch contains its own source and the call for it is accepted |
| RelayDeletes.DeleteEchoIsSilent | internal/bridge/edits.go:98-102 | Events that report deletes made by the relay cause no call, in whatever grouping and after whatever steps, without any sender check |
| RelayAlbums.PanicsExactlyWithoutItems | internal/bridge/messages.go:562-571 | The handler panics if and only if an album that would be relayed has no items |
| RelayAlbums.PanicsExactlyWithoutMedia | internal/tg/client.go:643-648 | For a flushed buffer: if and only if none of its messages carries supported media |
| RelayAlbums.PanicHappens | internal/bridge/messages.go:568-571 | Two text messages of one group make it panic |
| RelayAlbums.EveryItemGetsItsSave | internal/bridge/messages.go:591-626 | An item of a new album is recorded unless its own save fails, whatever happens to the other saves |
| RelayAlbums.AlbumOrderIsKept | internal/bridge/messages.go:591-626 | If the response names the mirrors in order, item i is recorded against the i-th mirror |
| RelayAlbums.FlushedOrderIsKept | internal/tg/client.go:631-673 | From the buffered messages to the rows: in whatever order they arrive, the k-th message with media, by id, is recorded against the k-th mirror |
| RelayAlbums.AlbumStaysCleanIffNamedApart | internal/bridge/messages.go:591-626 | A sent and saved album leaves targets unique if and only if the response names no message twice among the ids used |
| Reactions.DedupStrings | internal/bridge/reactions.go:227-238 | Compaction in place leaves, in front, the list without repeated neighbours, although writing and reading share one array |
| Reactions.StandardGrows | internal/bridge/reactions.go:91-101 | An ordinary emoji joins the set to be mirrored; a custom one and one without a name do not |
| Reactions.LessIsDictionary | internal/bridge/reactions.go:102 | The order of the list: the first difference decides, and a proper prefix comes first |
| Reactions.CanonicalIncreases | internal/bridge/reactions.go:102-103 | A canonical list strictly increases from any element to any later one |
| Reactions.ReactionIsSentExactlyIf | internal/bridge/reactions.go:105-133 | A set is sent exactly if it differs from the one seen last, the needed lookups work, and the other side is recorded and reachable; and to that other side |
| Reactions.OneReactionIsSent | internal/bridge/reactions.go:91-148 | One ordinary emoji on a recorded, reachable message with nothing cached is sent, as the list of that emoji |
| Reactions.DedupIsCanonical | internal/bridge/reactions.go:102-103 | On a sorted list this is the strictly increasing list of the same set |
| Reactions.CanonicalUnique | internal/bridge/reactions.go:22-26 | A set has only one such list, so cached lists are equal exactly if the sets are |
| Reactions.SetDiff | internal/bridge/reactions.go:212-224 | Exactly the elements missing from the second list; empty exactly if there are none |
| Reactions.ReactionsCache.Cleanup | internal/bridge/reactions.go:55-67 | Removes exactly the entries older than 24 hours and returns how many |
| ReactionMirroring.CleanupIsEviction | internal/bridge/reactions.go:55-67 | Cleaning up drops the sets of exactly the stale keys and changes no other |
| ReactionMirroring.SoundKeepsSync | internal/bridge/reactions.go:89-159 | Applied events, rows recorded before any reaction, and evictions of empty sets keep the account's reactions on every mirror equal to the cached set |
| ReactionMirroring.MirrorShowsLatest | internal/bridge/reactions.go:89-159 | After any such run the account's reactions on a mirror are the last set reported for its original |
| ReactionMirroring.SuppressionRefinesAlwaysSend | internal/bridge/reactions.go:105-115 | After any such run the chats are as if every set had been sent |
| ReactionMirroring.ReconnectEvictsAll | internal/bridge/bridge.go:65-77 | The empty cache of a new bridge is an eviction of every key |
| ReactionMirroring.EvictionHidesTotalRemoval | internal/bridge/reactions.go:55-67 | After an eviction the next reported set reaches the mirror if and only if it is not empty, or the evicted set was |
| ReactionMirroring.EarlyReactionHidesRepetition | internal/bridge/reactions.go:105-126 | After a set was reported before the row of its message was saved, the next set reaches the mirror if and only if it differs or is empty |
| ReactionEcho.ReactionIsPing | internal/bridge/reactions.go:89-159 | An event on a message or its mirror acts on the relay as one event of the two-ended echo, and counts as one send at most |
| ReactionEcho.OthersLeaveEndsAlone | internal/bridge/reactions.go:117-126 | Apart from evictions, nothing else touches the cache or the reactions of the two ends |
| ReactionEcho.EventUsesOne | internal/bridge/reactions.go:105-115 | Every send uses up one of the sends that were still possible |
| ReactionEcho.EchoDiesOut | internal/bridge/reactions.go:89-159 | With the users' reactions fixed, a message and its mirror cause at most four sends in any run, at most three if all are applied, from any cache and any reactions of the account; as many again per eviction of their sets |
| ReactionEcho.RelayRunIsEcho | internal/bridge/reactions.go:89-159 | Every run of the relay without such evictions is, for the two ends, a run of the echo |
| ReactionEcho.EchoRunIsRelayed | internal/bridge/reactions.go:89-159 | And every run of the echo happens in the relay |
| ReactionEcho.RelayReachesBounds | internal/bridge/reactions.go:89-159 | Three and four sends do occur in the relay |
| ReactionEcho.RelayEchoConverges | internal/bridge/reactions.go:142-146 | Once a reliable echo that started from nothing is quiet, the account shows the union of both sides' reactions on both ends |
| ReactionEcho.RelayReactionsStick | internal/bridge/reactions.go:105-115 | After convergence a changed set is sent if and only if it brings a new emoji; runs in which users only remove reactions send nothing and leave the account's reactions as they are |
| AlbumBuffer.StepKeeps | internal/tg/client.go:567-626 | Every atomic step of a handler, timer or flush keeps the invariant of buffers, threads, messages and deliveries |
| AlbumBuffer.DoneBelowTen | internal/tg/client.go:578-592 | After appending, a handler is done exactly if its buffer holds fewer than 10 messages; the timer is armed in any case |
| AlbumBuffer.FlushStartsByDisarming | internal/tg/client.go:584-602 | A flush of a group starts exactly by disarming an armed timer, so a handler that finds the timer fired starts none |
| AlbumDelivery.DeliveredAtMostOnce | internal/tg/client.go:606-626 | In every run no buffer is delivered twice and no message appears twice over all deliveries |
| AlbumDelivery.CutOffAfter | internal/tg/client.go:606-618 | A buffer stops accepting messages exactly when a flush copies it, and for good |
| AlbumDelivery.LossIsLateAppend | internal/tg/client.go:567-602 | A message is lost exactly by being appended after its buffer was copied, and stays lost |
| AlbumDelivery.NothingStranded | internal/tg/client.go:567-626 | When all is at rest no buffer is live, and every message that arrived is delivered or lost |
| AlbumDelivery.AllDeliveredIffGapless | internal/tg/client.go:567-626 | At rest, every message has been delivered if and only if no flush copied a buffer that a handler had obtained but not yet appended to |
| AlbumDelivery.PromptRunsLoseNothing | internal/tg/client.go:567-588 | If obtaining the buffer and appending were one step, no message could be lost |
| AlbumDelivery.TenthMessageFlushes | internal/tg/client.go:590-602 | Left alone, the handler of the tenth message disarms the timer and delivers the whole buffer itself, in order of arrival |
| AlbumDelivery.NextMessageCanBeLost | internal/tg/client.go:567-618 | Whenever a flush is about to take a live buffer, an interleaving loses the next message of the group |
| AlbumDelivery.LossIsAlwaysPossible | internal/tg/client.go:567-618 | From every reachable state and for every group two more messages are enough for a loss |
| AlbumDelivery.LossHappens | internal/tg/client.go:567-618 | The second message ever received can be lost |
| AlbumHandlers.Albums.HandleAlbumMessage | internal/tg/client.go:567-602 | The code of the handler, run alone, is the sequence of its atomic steps; it delivers if and only if nine messages or more were buffered before, and then those and its own |
| AlbumHandlers.HandlerWaitsForTen | internal/tg/client.go:567-602 | With fewer than nine messages buffered, a handler run alone adds its own, leaves the buffer live with its timer armed and delivers nothing; with nine, all ten are delivered and the group is free |
| AlbumHandlers.Albums.FlushAlbum | internal/tg/client.go:606-626 | The code of a flush, run alone, is the sequence of its atomic steps |
| AlbumConvert.ConvertAlbumEvent | internal/tg/client.go:631-673 | Items and reply header are those of the sorted messages |
| AlbumConvert.ItemsInIdOrder | internal/tg/client.go:631-673 | The items are exactly the messages with media, each as often as received, in id order; the reply header is that of the first of them that has one |
| AlbumConvert.NoItemsExactlyWithoutMedia | internal/tg/client.go:643-648 | The event has no items if and only if no message carries media |
| AlbumConvert.ArrivalOrderIsIrrelevant | internal/tg/client.go:632-635 | If ids identify messages, the event does not depend on the order of arrival |
| Entities.ConvertEntities | internal/tg/client.go:857-897 | Every entity is converted, in order |
| Entities.ConvertEntitiesToTG | internal/bridge/messages.go:356-391 | Entities of known kinds are converted, in order; others are dropped |
| Entities.InByKind | internal/tg/client.go:869-894 | The name each kind gets on the way in, with the link of a text link |
| Entities.OutByName | internal/bridge/messages.go:364-388 | The kind each of the eleven names stands for on the way out; no other name stands for any |
| Entities.EntityRoundTrip | internal/bridge/messages.go:356-391 | Into the bridge and out again, the eleven supported kinds survive with position and link, preformatted text loses its language, and other kinds vanish |
| Entities.UnchangedIffFaithful | internal/tg/client.go:857-897 | The formatting is unchanged if and only if all kinds are supported and no preformatted text has a language |

## Left out

- Telegram's calls, uploads, downloads, sessions and the login: each call is an answer given as input, plus its effect on the chats.
- The SQL driver and connection pool: the table is a sequence of rows with the two lookups and the unique insert; storage errors are inputs.
- YAML, environment variables, flags, logging, containers, the humanizer's delay (only its cancellation), the health check and hard shutdown: plumbing without a property across functions.
- Media: only presence and order matter; captions are not modelled (single media is re-sent without one, an album with that of its first item), so text agreement is about text messages, and what an edit with new media does to its mirror is not followed. `convertMedia` fields, file names and MIME defaults are not part of this model.
- The checks for a missing API client: the bridge of a connected account always has one.
- Chat ids: the bridge's own ids are used throughout; their derivation from Telegram's peers is not part of this model.
- MessageStore.Store.FindByTarget: yields the first matching row, where the original takes any one; for known ids there is only one (LookupsUnique).
- ScheduleValidation.ValidateSchedule: whether the time zone exists is an input, because the zone database is not modelled.
- Shifts.ActiveShift: instants lie in a zone of fixed offset, so the days of daylight-saving changes are not modelled.
- SchedulerLoop.RunShifted: runs are any finite number of turns with any clock readings; the lengths of the waits between them are not modelled.
- SchedulerLoop.Client.Connect: the update manager running in the background is not modelled.
- Bridge.Impl.OnReactions: says which calls are made and with which list; that Telegram may refuse an emoji of a call that counts as sent appears as an unapplied send in ReactionMirroring and ReactionEcho.
- Bridge.Impl.OnAlbum: an album without items is reported as a panic instead of being turned into an error by the dispatcher.
- RelayDeletes.DeleteEchoIsSilent: is about deletes of mirrors whose id is known.
- RelayTheorems.StepKeeps: each handler is one step here; RelayInterleaving.MoveKeeps is about their pieces, and RelayPieces.WholeIsItsPieces connects the two. Reaction events remain one step each.
- RelayTheorems.RunKeeps: runs interleave whole handlers here; RelayInterleaving.InterleavedRunKeeps is about their pieces.
- RelayInterleaving.MoveKeeps: the retries of one send count as one move, at the time of the last.
- RelayInFlight.EditInFlightIsLost: for an album item the lost caption itself is not modelled, only that no call is made.
- RelayTexts.MirrorsShowTheirSource: an edit that turns a text message into media is not modelled.
- AlbumHandlers.Albums.HandleAlbumMessage: a new buffer is made only when it is stored, and chat and sender of a buffer, taken from its first message, are not modelled.
- AlbumDelivery.NothingStranded: timers are steps that may happen at any time while armed; that they do happen after 500 ms is not modelled.
- AlbumConvert.ConvertAlbumEvent: the library's sort is an insertion sort; it may order messages of equal id differently.
- Reactions.SortStrings: the library's sort is an insertion sort that compares characters where the original compares bytes; what follows depends only on the set that a sorted list stands for.
