# Context-guru, verified

Context-guru is a proxy that rewrites LLM requests before they reach a provider: it compacts tool
output, summarizes spans of a conversation, places cache breakpoints, and reports what that saved. This
project models the parts of it whose promises are hardest to keep and proves those promises in Dafny.

- **The pipeline engine** (`PipelineRules.dfy`, `Engine.dfy`): arbitrary components over mutable message
  objects, one live snapshot kept in step, revert, the never-worse guard, own outputs put back.
- **Request rebuild and splice** (`Splice.dfy`, `Reminders.dfy`, `Responses*.dfy`, `Chat*.dfy`): edits
  spliced into the raw body in one pass; a summary put in the place of messages on both wires, the stash
  that undoes it, and the tool messages that must not leak.
- **Cache breakpoints** (`Wire.dfy`, `MarkPlaces.dfy`, `SystemSplit.dfy`, `Breakpoints.dfy`, `Mark*.dfy`): the system
  split, the head upgrade, the anchor, the in-band move, the tail mark and the appended ask, under the
  provider's cap of four and its rule that longer lifetimes come first.
- **Cache liveness and single writers** (`ColdClock.dfy`, `PrefixClaims.dfy`, `JsonCache.dfy`): when a
  prompt cache may be called cold, who may write a prefix, and a stale-while-revalidate response cache
  under every interleaving.
- **Attribution arithmetic** (`Carried*.dfy`, `Replay*.dfy`, `Prices.dfy`): a table read in slices equals
  one pass, reported bounds bracket the figure, a closed-form charge equals the replayed one.
- **Ordered-list edits** (`OrderedLists.dfy`): a pipeline edited without losing a component.

`Lists.dfy` holds the small helpers and the facts about sequences, sums and filters the other modules share.

Raw JSON is modelled as datatypes for messages, blocks and items; tokens, prices, keys and the work of a
component are parameters or arbitrary choices; money is `real`, clocks are `nat`. Code that changes state
step by step is a method with its loops, proved against a specification function about which the lemmas
then speak.

Five promises in the source or its comments do not hold as stated. Each has a lemma with a concrete run
and one that says exactly when the promise holds:

- "Never worse" (`components/pipeline.go:207`) fails when an own output is put back after the guard:
  `PipelineRules.OwnOutputsBreakNeverWorse`, `PipelineRules.SettleNeverWorseIff`.
- Own outputs are protected by index, so a kept change of the message count loses them:
  `PipelineRules.CountChangeLosesOwnOutput`, `PipelineRules.OwnOutputsSurviveIff`.
- The age bound in the comment at `dash/api.go:264-266`, TTL plus stale plus the compute timeout, needs load
  and claim in one hold of the lock: `JsonCache.StaleBoundFailsInTwoHolds`, `JsonCache.StaleBoundIff`.
- The comment at `apply/apply.go:1886-1908` says a kept tool message is never serialized from the struct;
  for a rewritten tool_result whose content is a block array it is: `ChatSurvivors.BlockArrayLeaksRole`,
  `ChatSurvivors.NoToolRoleIff`.
- The rebuild is to emit each survivor as its own body message (`apply/apply.go:1931-1950`). It takes the first
  unused slot that reads the same, so where a message after a summarized span reads as one inside it, a body
  message that was cut is emitted again: `ChatSpan.CutMessageReturns`, `ChatSpan.SpanIsReplacedIff`.

## Model

| member | source | states |
|---|---|---|
| `PipelineRules.DiffListed` | components/pipeline.go:355-366 | An index is reported changed exactly when the message there differs before and after. |
| `PipelineRules.ReportRefused` | components/pipeline.go:188-210 | A component that fails, panics, grows the request or drops content unstashed leaves every message as it was and reports no change. |
| `PipelineRules.SettleOutcome` | components/pipeline.go:176-229 | A turn that panicked, returned an error, lost content or grew the request leaves every message as it was and reports it; any other stands as proposed, but for the own outputs where the count is kept. |
| `PipelineRules.SettleNeverWorseIff` | components/pipeline.go:207-229 | One component leaves the request no heavier if and only if it is refused, inert, changes the count, or keeps the tokens outside the own outputs from growing. |
| `PipelineRules.RunNeverWorse` | components/pipeline.go:73-121 | In any run with no own outputs the final token count never exceeds the initial one, whatever the components do. |
| `PipelineRules.OwnOutputsBreakNeverWorse` | components/pipeline.go:207-219 | With an own output present a concrete component passes the guard and the request still ends heavier. |
| `PipelineRules.SavingsTelescope` | components/pipeline.go:73-121 | The before/after figures of the reports add up to exactly the tokens the run removed. |
| `PipelineRules.SettleInPlaceIff` | components/pipeline.go:299-339 | A turn leaves the own outputs in place exactly when they were, unless it keeps a new message count, and then exactly when its proposal has them in place. |
| `PipelineRules.OwnOutputsSurviveIff` | components/pipeline.go:73-121 | Every own output ends equal to how it began if and only if no turn kept a new message count or the last that did proposed them in place. |
| `PipelineRules.OwnOutputsStayIff` | components/pipeline.go:73-121 | They are in place after every turn if and only if every turn that kept a new message count proposed them in place. |
| `PipelineRules.OwnOutputsSurvive` | components/pipeline.go:299-339 | In particular, in a run that keeps the message count every own output ends equal to how it began. |
| `PipelineRules.CountChangeLosesOwnOutput` | components/pipeline.go:108-110 | The own indices are taken once, so a kept count change can lose an own output; a concrete run shows it. |
| `PipelineRules.OwnerTableAt` | components/pipeline.go:379-400 | The owner table built by overwriting gives each index the last report that changed it, and only to changed indices. |
| `PipelineRules.OwnerMadeTheFinalChange` | components/pipeline.go:379-400 | The owner of an index is the one turn that changed that message and after which it never changed again, and none where it never changed. |
| `Engine.CloneMessages` | schema/schema.go:61-72 | A clone has the same values in fresh objects. |
| `Engine.ChangedIdx` | components/pipeline.go:355-366 | The scan lists exactly the differing indices, and none where the count changed. |
| `Engine.Run.Act` | components/pipeline.go:137-190 | Any component at all: it may write every message object it has ever been able to reach, and no other. |
| `Engine.Run.Revert` | components/pipeline.go:150-175 | Reverting installs the snapshot's values and leaves a new snapshot that shares no object with them. |
| `Engine.Run.RestoreOwn` | components/pipeline.go:321-339 | Own outputs are put back at their indices, the rest of the proposal is kept, and the changed list is exact afterwards. |
| `Engine.Run.Resync` | components/pipeline.go:272-280 | Re-cloning only the changed messages brings the snapshot back in step, with no object shared. |
| `Engine.Run.RunOne` | components/pipeline.go:137-231 | From a snapshot in step, one component ends in a snapshot in step, with the request and report of that outcome for what the component did. |
| `Engine.Run.Execute` | components/pipeline.go:73-121 | A whole run keeps the snapshot equal in value and disjoint in objects before each component, and ends at the replay of the components' actions. |
| `Engine.RecordDiscards` | components/pipeline.go:379-400 | Each discarded index is charged once, to its owner, and the charges sum to the discards at changed indices. |
| `PrefixClaims.PrefixCache.ClaimCacheWrite` | cheapmodel/cachecontrol.go:140-167 | A claim marks when the prefix is written and young or nobody is writing it, and takes the slot in the second case. |
| `PrefixClaims.PrefixCache.Release` | cheapmodel/cachecontrol.go:168-186 | The first release frees a claimed slot and records an observed entry; later ones do nothing. |
| `PrefixClaims.AlwaysSingleWriter` | cheapmodel/cachecontrol.go:115-186 | In every interleaving at most one claimed ticket per prefix is outstanding, and inflight is true exactly when one is. |
| `PrefixClaims.WrittenWasObserved` | cheapmodel/cachecontrol.go:168-186 | A prefix believed written was observed by some release at exactly the recorded time. |
| `PrefixClaims.MarksAreJustified` | cheapmodel/cachecontrol.go:140-167 | Every marked call took a slot nobody held, or came within prefixEntryTTL of an observed entry. |
| `PrefixClaims.RefusedOnlyWhileHeld` | cheapmodel/cachecontrol.go:140-167 | A claim marks if and only if the prefix is believed written or no ticket holds its slot. |
| `PrefixClaims.MarkedIff` | cheapmodel/cachecontrol.go:140-167 | On ordered clocks a claim marks if and only if some release observed the entry within prefixEntryTTL or nobody holds the slot, and takes the slot only where nothing was observed that recently. |
| `PrefixClaims.NextClaimMarks` | cheapmodel/cachecontrol.go:115-186 | Once every ticket is released, the next claim of any prefix marks. |
| `PrefixClaims.ReleaseIsIdempotent` | cheapmodel/cachecontrol.go:168-186 | Releasing a ticket again changes nothing, whatever the second call reports. |
| `JsonCache.ResponseCache.Clear` | dash/api.go:211-219 | A clear empties the entries and moves the generation on. |
| `JsonCache.ResponseCache.LoadAged` | dash/api.go:274-290 | A stored body is answered with its age before TTL plus stale, and past that exactly while its refresh is claimed. |
| `JsonCache.ResponseCache.BeginRefresh` | dash/api.go:291-303 | Exactly one caller at a time wins the refresh of a key. |
| `JsonCache.ResponseCache.EndRefresh` | dash/api.go:304-309 | The claim of that key alone is given up. |
| `JsonCache.ResponseCache.SetIfCurrent` | dash/api.go:228-236 | A computed body is stored only in the generation it began in, the map dropped first when too large. |
| `JsonCache.AlwaysSafe` | dash/api.go:190-327 | In every interleaving each entry comes from a compute begun after the last clear, one refresh at most holds a key, and the map holds at most 257 entries. |
| `JsonCache.StaleOnlyWhileRefreshing` | dash/api.go:380-439 | Whatever a reader is answered is the stored body at its own age, and past TTL plus stale exactly one refresh of it is running. |
| `JsonCache.StoredIsAnswered` | dash/api.go:228-290 | A body stored by a compute of the current generation is what every load answers, at its age, until a clear, a newer store of the key or a drop of the map: always before TTL plus stale, and past it exactly while a refresh of the key is unfinished. |
| `JsonCache.StaleReaderRefreshes` | dash/api.go:380-397 | Once a stale reader has claimed, a refresh of the key is running. |
| `JsonCache.FlightAnswers` | dash/api.go:416-426 | A cold flight that reads its generation and finishes answers the next load. |
| `JsonCache.RunningBoundIff` | dash/api.go:274-303 | Past TTL plus stale a body is answered for no longer than its refresh has been running, throughout a run, if and only if every winning claim came in time. |
| `JsonCache.InTimeIsDocumented` | dash/api.go:264-290 | With claims in time and refreshes ended within the compute timeout, every body answered is younger than TTL plus stale plus that timeout. |
| `JsonCache.LateClaimBreaks` | dash/api.go:380-397 | After any winning claim that came late the run can go on, with no refresh past the timeout and no further claim, to a body older than that. |
| `JsonCache.StaleBoundIff` | dash/api.go:264-290 | The documented bound is safe from a run under every such continuation if and only if every winning claim of the run came in time. |
| `JsonCache.StaleBoundFailsInTwoHolds` | dash/api.go:380-397 | Load and claim are two holds of the lock, so for any extra age there is a run, with every refresh within the timeout, that answers a body that old. |
| `ColdClock.Store.AliasSeen` | apply/apply.go:1147-1158 | The alias clock returns its last time and takes the new one, or is left alone at time zero. |
| `ColdClock.Store.RecordCacheTouchAlias` | apply/apply.go:1225-1237 | A keep-alive touch moves the alias clock forward only. |
| `ColdClock.Store.SessionTTL` | apply/apply.go:1257-1269 | The longest lifetime recorded under a key, now including this one. |
| `ColdClock.Store.ColdTurn` | apply/apply.go:556-653 | The cold decision over both clocks and both lifetime records, with the records it leaves; a turn whose lifetime is not exact moves the clocks only. |
| `ColdClock.AliasClockKeepsUp` | apply/apply.go:1147-1158 | In every timed run the alias clock is never behind any event on the alias. |
| `ColdClock.TTLRecordKeepsUp` | apply/apply.go:1257-1269 | The alias's lifetime record is never below the longest lifetime any turn asked for under it. |
| `ColdClock.ColdOnlyWhenIdle` | apply/apply.go:1128-1158 | A turn is declared cold only if every earlier event on its alias, under either id, is older than the longest lifetime ever asked plus the margin. |
| `ColdClock.ColdExactly` | apply/apply.go:556-653 | For a conversation under one alias, cold is declared if and only if the lifetime is exact, something came before and the last event is that old. |
| `ColdClock.VerdictIs` | apply/apply.go:556-653 | After any timed run a turn is cold if and only if its lifetime is exact and the later of its thread's last turn (or, on its first, the parent's) and its alias's last event is as far back as the longest lifetime that reached the thread, its parent or the alias, plus the margin. |
| `Splice.SpliceMessages` | apply/apply.go:2098-2122 | The loop succeeds exactly when the edited spans are disjoint, inside the body and confirmed by its bytes, and then gives the one-pass text. |
| `Splice.SucceedsIff` | apply/apply.go:2098-2122 | It succeeds if and only if every edit names a message whose bytes the body confirms at its shifted offset, and the edited spans follow one another with something between. |
| `Splice.SetIsLocal` | apply/apply.go:2098-2122 | One edit replaces exactly its message's bytes and copies everything else. |
| `Splice.ShiftLocates` | apply/prefixsplit.go:186-194 | Offsets taken before the system split are right after it once shifted. |
| `Splice.OnePassIsEdited` | apply/apply.go:2098-2122 | On located messages the one-pass splice succeeds and renders the edited document. |
| `Splice.OnePassIsAnyOrder` | apply/apply.go:2098-2122 | With shifted offsets it equals applying the edits to the split body one at a time in any order. |
| `Splice.OnePassWithoutSplit` | apply/apply.go:2098-2122 | The same without a split. |
| `Reminders.SplitTrailingReminders` | apply/reminder.go:77-98 | The loop gives the body and the run of trailing reminder blocks. |
| `Reminders.SplitIsLosslessAndFinal` | apply/reminder.go:77-98 | Body plus tail is the text, and splitting the body again splits nothing off. |
| `Reminders.TailIsReminders` | apply/reminder.go:77-98 | What is split off is reminder blocks and separators and nothing else. |
| `Reminders.SplitExactly` | apply/reminder.go:77-98 | For every text the tail is complete reminder blocks and nothing else, no block ends what stands before it, and nothing is split where only blanks would be left. |
| `Reminders.TrailingWhitespace` | apply/reminder.go:69-75 | The loop gives the trailing separators. |
| `Reminders.WriteTailRestoresIff` | apply/reminder.go:57-66 | With a tail, the original text comes out exactly for the body or the body without its trailing whitespace. |
| `Reminders.WriteTailIs` | apply/reminder.go:57-66 | Whatever the components left goes out first and the tail last, with the separators that ended the body between them unless the body is unchanged. |
| `SystemSplit.SplitPointIsStableHalf` | apply/toolfilter.go:388-399 | The split point is one past the earliest marker, so the stable half is stableHalf of the text plus one newline. |
| `SystemSplit.SplitVolatileTail` | apply/prefixsplit.go:98-178 | The loop gives the split block list, and the blocks themselves where it reports no split. |
| `SystemSplit.SplitShape` | apply/prefixsplit.go:98-178 | At most one block changes; all before it and after it stay as they are. |
| `SystemSplit.SplitResult` | apply/prefixsplit.go:98-178 | The first block whose text up to its first marker reaches the floor is cut one past that marker's newline, its marks and a breakpoint of its own right after it staying with the stable half; nothing else changes. |
| `SystemSplit.DividedKeeps` | apply/prefixsplit.go:136-168 | The divided block keeps its text, its mark count and all its marks on the stable half. |
| `SystemSplit.SplitKeepsAll` | apply/prefixsplit.go:98-178 | The concatenated system text, the number of marks and their order survive the split. |
| `Breakpoints.FindLastMessageMark` | apply/breakpoint.go:366-383 | The scan finds the last breakpoint in messages, or none. |
| `Breakpoints.UpgradeArray` | apply/headttl.go:96-123 | Every mark of an array asks for one hour, and the array is untouched where it has none. |
| `Breakpoints.InsertAsk` | cheapmodel/anthropic.go:453-487 | The ask is appended after the bridge its last message calls for. |
| `Breakpoints.PlaceCounts` | apply/breakpoint.go:90-131 | A placed mark moves one, or adds one strictly below the cap. |
| `MarkPlaces.BreakpointsArePlaces` | schema/breakpoints.go:65-131 | The count the cap is held against is the number of marked places over tools, system, messages and blocks, in both spellings. |
| `Breakpoints.NeverOverTheCap` | apply/breakpoint.go:90-155 | After any sequence of host edits at most four places are marked, or at most as many as the client marked. |
| `Breakpoints.AskKeepsPrefix` | cheapmodel/anthropic.go:453-487 | The ask keeps all original messages as an unchanged prefix and follows a trailing system message with an assistant turn. |
| `MarkRules.LastMarkIsLast` | apply/breakpoint.go:366-383 | The mark found is the last in messages, and one is found if there is any. |
| `MarkRules.BlocksAfterCounts` | apply/breakpoint.go:346-362 | The distance held against the lookback is the number of content blocks after the mark. |
| `MarkRules.InBandIff` | apply/breakpoint.go:193-221 | The follow-up is marked if and only if messages hold a mark, the last block takes one, and at most lookbackBlocks blocks lie between. |
| `MarkRules.TailIff` | apply/breakpoint.go:297-323 | The tail mark is added if and only if messages hold a mark, more than tailMinBytes follow it, the last block takes one, and fewer than four places are marked. |
| `MarkRules.AnchorTargetIs` | apply/breakpoint.go:133-155 | The anchor goes to the first tool_result of the call in the last message that has one. |
| `MarkRules.AnchorIff` | apply/breakpoint.go:133-155 | It is written if and only if there is such a block, it carries no mark, and fewer than four places do. |
| `MarkRules.HeadIs` | apply/headttl.go:96-123 | Every cache_control mark in tools and system gets the hour, and no other field changes. |
| `MarkRules.AskIs` | cheapmodel/anthropic.go:453-500 | The ask follows an assistant turn exactly after a system message or a marked user message; the mark is copied there below the cap only. |
| `MarkOrder.InBandMoves` | apply/breakpoint.go:193-221 | One call returns the body unchanged or moves the last message mark, value kept, to the last block across at most lookbackBlocks blocks. |
| `MarkOrder.RoundsKeepMarks` | apply/breakpoint.go:193-221 | Over any number of in-band rounds the marks keep their values, order and number. |
| `MarkOrder.TailAddsLast` | apply/breakpoint.go:297-323 | The tail mark changes nothing, or repeats the last mark's value on the last block, below the cap and past tailMinBytes. |
| `MarkOrder.AnchorAddsOne` | apply/breakpoint.go:133-155 | The splice anchor changes nothing, or adds one five-minute mark at its tool_result, below the cap. |
| `MarkOrder.HeadOnlyLengthens` | apply/headttl.go:96-123 | The head upgrade changes only the lifetime of marks already there. |
| `MarkPlaces.LongestFirstByPlace` | apply/headttl.go:37-44 | The list of marks is longest first exactly when no marked place with less than an hour comes before one with an hour: tools, system, then each message before its blocks. |
| `MarkOrder.EditsKeepOrder` | apply/breakpoint.go:193-323 | Split, head upgrade, in-band move and tail mark keep every one-hour place before every five-minute one, in any sequence. |
| `MarkOrder.AnchorKeepsOrderIff` | apply/breakpoint.go:133-155 | Where the anchor lands, that order survives if and only if no one-hour mark comes after it. |
| `Responses.Normalize` | apply/responses.go:375-472 | The loop shows instructions and items as the slots and messages each item kind gives. |
| `ResponsesRules.SlotShows` | apply/responses.go:375-472 | A slot shows the text of its own field under the item's role, or is opaque. |
| `ResponsesRules.TextIsShown` | apply/responses.go:375-472 | Every text an item shows has its slot. |
| `ResponsesRules.SlotsCount` | apply/responses.go:375-472 | Every payload block has one slot, none shared, and calls and reasoning the one of the whole item. |
| `Responses.SpanSafe` | apply/responses.go:113-220 | The answer is true exactly for spans of whole, representable items that part no call from its output. |
| `ResponsesRules.SafeIff` | apply/responses.go:113-220 | A span may be cut if and only if it is the slots of whole items, all wholly seen, that part no call from its output. |
| `Responses.CountCovered` | apply/responses.go:126-140 | Per cut item the number of its slots, refused where a slot stands on the wrong side. |
| `Responses.IndexSides` | apply/responses.go:190-205 | Each id maps to the last call and the last output that carry it. |
| `Responses.Stash` | apply/responses.go:222-239 | The stash exists exactly for safe spans and is the span's items in order. |
| `ResponsesRebuild.Rebuild` | apply/responses.go:247-358 | The rebuild's loops give the body its specification gives, or decline. |
| `ResponsesRebuild.WriteSurvivor` | apply/responses.go:286-318 | A kept message is accepted on the source's tests and its text lands in its item alone. |
| `ResponsesUndo.SpanIsWholeItems` | apply/responses.go:113-140 | A safe span runs from its first item's first slot to its last item's last slot. |
| `ResponsesUndo.StashUndoesRebuild` | apply/responses.go:222-358 | Putting the stash in place of the summary gives the original items back, up to text edits on survivors, and exactly where there are none. |
| `ResponsesUndo.RebuiltShowsOutput` | apply/responses.go:247-358 | Normalizing the rebuilt body gives the components' output back, message by message, in role and text. |
| `ResponsesPairs.NoPairIsParted` | apply/responses.go:190-219 | With ids unique per side, every remaining call or output has its partner exactly when it had it before, and a cut exchange leaves nothing. |
| `ResponsesPairs.RecoversSpan` | apply/responses.go:262-282 | A successful rebuild cuts exactly the span the summarizer replaced. |
| `ResponsesPairs.SafeSpansAreRebuilt` | apply/responses.go:247-358 | Every output that keeps roles, writes only writable text and holds one summary over a safe span is rebuilt. |
| `ResponsesPairs.OnlySafeSpansAreRebuilt` | apply/responses.go:247-358 | And no other output is. |
| `ResponsesPairs.WhollyIff` | apply/responses.go:141-182 | On normalized slots an item passes the coverage test exactly when it is of a known kind and role and its payload is text or non-empty objects. |
| `ResponsesPairs.NothingUnseenIsCut` | apply/responses.go:113-182 | No item is cut that the summarizer did not see all of. |
| `ChatRebuild.Normalize` | apply/apply.go:1677-1790 | The loop shows each body message as the slots its shape gives. |
| `ChatShown.SlotShows` | apply/apply.go:1677-1790 | A slot is one text of a message with tool results, its reminders set aside, or the whole of any other message. |
| `ChatShown.TextIsShown` | apply/apply.go:1677-1760 | Every text of a message with tool results has its slot. |
| `ChatShown.WholeIsShown` | apply/apply.go:1760-1790 | Any other message is shown whole where the chat schema reads it, and not at all where it does not. |
| `ChatShown.CallHasSlotIff` | apply/apply.go:1909-1919 | A tool message finds a slot by its call if and only if some tool_result of that call has a string for its content. |
| `ChatRebuild.IndexTools` | apply/apply.go:1909-1919 | Each call id maps to the last string-content slot that carries it. |
| `ChatRebuild.WriteBackToolText` | apply/apply.go:2004-2039 | The loop leaves in each tool_result what the output message of its id says. |
| `ChatRebuild.RebuildCountChanged` | apply/apply.go:1871-1978 | The loops decline or emit exactly what the specification gives. |
| `ChatEmission.DeclinesUncovered` | apply/apply.go:1876-1884 | A body with a message that has no slot is never rebuilt. |
| `ChatEmission.CountsOnlyWhenCovered` | apply/apply.go:1876-1884 | The covered count is right if and only if every message is covered. |
| `ChatEmission.RebuiltInOrder` | apply/apply.go:1920-1966 | Output messages come out in order, a matched one as the body message of its slot, each body message exactly when a slot of it was matched and once, no slot twice. |
| `ChatEmission.MatchesAreRight` | apply/apply.go:1931-1950 | A match is by id or bytes, and a message marshaled fresh had no slot left to match. |
| `ChatTools.TextReachesBlock` | apply/apply.go:2004-2039 | A kept tool message's text, with its reminders, is what its tool_result holds in the rebuilt body. |
| `ChatTools.UnansweredBlockStays` | apply/apply.go:2004-2039 | A tool_result no output message answers keeps its bytes. |
| `ChatTools.WroteKeepsRest` | apply/apply.go:2004-2039 | The write-back changes tool outputs and nothing else of a message. |
| `ChatTools.ToolFindsItsSlot` | apply/apply.go:1931-1943 | A tool message whose call has a string tool_result is matched to that block, whatever happened to its text. |
| `ChatSurvivors.UsedSurvives` | apply/apply.go:1931-1953 | A slot is matched if and only if its call is answered or, for one no id reaches, fewer slots before it read the same than output messages do. |
| `ChatSurvivors.KeepsExactlySurvivors` | apply/apply.go:1920-1966 | A body message is in the rebuilt array if and only if one of its slots survives in that sense, told from body and output alone, and then once. |
| `ChatSurvivors.MatchedIff` | apply/apply.go:1931-1953 | An output message stands as a body message if and only if its call has a string slot or slots that read as it does are left for it. |
| `ChatSurvivors.NoToolRoleIff` | apply/apply.go:1886-1953 | No role=tool message is marshaled if and only if every tool message left has a string slot by its id or was shown at least as often as it is left. |
| `ChatSurvivors.NeverMarshalsTool` | apply/apply.go:1886-1950 | In particular with string tool_result content, each answered once, no role=tool message is marshaled. |
| `ChatSurvivors.BlockArrayLeaksRole` | apply/apply.go:1982-1993 | With block-array content a rewritten output is marshaled as role=tool; a concrete body shows it. |
| `ChatSpan.SpanIsReplacedIff` | apply/apply.go:1920-1966 | One new message in place of whole body messages leaves exactly the others, in order, if and only if no message after the span reads as one inside it; else a cut message is emitted. |
| `ChatSpan.CutMessageReturns` | apply/apply.go:1939-1953 | Two replies with the same words beside their tool_results: the first is cut and its bytes come back after the second. |
| `ChatSpan.SpanIsReplacedExactly` | apply/apply.go:1871-1978 | On the wire the others stay byte for byte and in order also where what recurs is a whole message of the same bytes. |
| `CarriedSets.AddedRepresents` | dash/adapttools.go:543-573 | One more row keeps each set's first time, tool count and per-key weight and rows those of its rows. |
| `CarriedSets.Sum` | dash/adapttools.go:268-276 | The fold gives each key its total weight and its number of rows. |
| `CarriedSets.IdIsKey` | dash/adapttools.go:268-276 | An interned id's figures are those of the key name it stands for. |
| `CarriedSets.ReadsAgree` | dash/adapttools.go:580-721 | Two reads of the same rows agree on sessions, digests, first times, tool counts and per-key tokens and rows. |
| `CarriedRead.Carrier.AddCarriedRow` | dash/adapttools.go:543-573 | The row is added to its session's set, its key interned. |
| `CarriedRead.Carrier.MergePart` | dash/adapttools.go:665-700 | A slice's ids are remapped and its sets joined to those already merged. |
| `CarriedRead.MergedRepresents` | dash/adapttools.go:665-700 | Merging two reads represents the rows of both. |
| `CarriedRead.RepresentsPermuted` | dash/adapttools.go:580-721 | What the sets say does not depend on the order the rows came in. |
| `CarriedSlices.SlicesPartition` | dash/adapttools.go:619-625 | Each rowid of the table is in exactly one slice. |
| `CarriedSlices.ReadPart` | dash/adapttools.go:635-661 | A slice's sets, pending rows and stale facts are those of its rows in scope. |
| `CarriedSlices.MergeRules` | dash/stalekind.go:75-87 | Merged stale rules hold the later time for every question. |
| `CarriedSlices.StaleMeansSuperseded` | dash/stalekind.go:91-104 | A pending row is dropped exactly when a newer fact of its session anywhere in the table replaces it. |
| `CarriedSlices.CarriedSetsOf` | dash/adapttools.go:580-721 | For any number of slices the result represents exactly the table's rows that count. |
| `CarriedPrice.Pick` | dash/adapttools.go:1125-1136 | The scan picks by position as its specification says. |
| `CarriedPrice.PickIsLatest` | dash/adapttools.go:1125-1136 | On sets sorted by first time the pick is the latest at or before the request, else the earliest. |
| `CarriedPrice.BoundsFor` | dash/adapttools.go:421-447 | Per key the least and most it weighs over the candidate sets. |
| `CarriedPrice.LoAttained` | dash/adapttools.go:421-447 | The bounds are what some candidate weighs. |
| `CarriedPrice.BoundsBracket` | dash/adapttools.go:388-527 | For every history and key USDLow <= USD <= USDHigh, with equality where no priced request had two candidate sets. |
| `CarriedLedger.GroupByCount` | dash/adapttools.go:414-420 | Each tool count lists exactly its sets, earliest first. |
| `CarriedBill.ChosenIsCarried` | dash/adapttools.go:448-462 | The set charged is the recorded one, else of the sets of as many tools the latest first seen by then, else the earliest; none where there is none. |
| `CarriedBill.RequestAddsLine` | dash/adapttools.go:448-526 | One request adds the chosen set's weight at the cache-read price to the read column, else at the price of the tier written to the write column, else at the input price, and nothing without a set, complete accounting or a price. |
| `CarriedBill.FiguresAreTheBill` | dash/adapttools.go:388-527 | A session adds to each key exactly the sum of its requests' lines: columns, bounds, tokens, requests and the unpriced flag. |
| `CarriedLedger.PriceRequest` | dash/adapttools.go:448-526 | The loops add that line to every key the ledger holds. |
| `CarriedLedger.Ledger.PriceSession` | dash/adapttools.go:388-527 | One session adds its requests to every key it carries and leaves the others alone. |
| `CarriedLedger.LedgerStaysBracketed` | dash/adapttools.go:388-527 | Session after session every key's bounds keep bracketing its figure. |
| `Replay.RatesAreTiers` | dash/adaptcompaction.go:1019-1040 | Each rate is a billed tier, and the blended write rate lies between its two. |
| `ReplayBill.RatesAre` | dash/adaptcompaction.go:1019-1040 | Which tier each rate is for which request, and the write rate shares out the tokens written in either tier. |
| `Replay.PriceReq` | dash/adaptcompaction.go:1208-1235 | The loop prices each block at its first or re-sent rate, adds the declaration, and charges a bust. |
| `Replay.ReplaySession` | dash/adaptcompaction.go:1106-1186 | The loop replays a session, lead-in unpriced, repeated requests at the sizes before. |
| `ReplayBill.RequestIsBilled` | dash/adaptcompaction.go:1106-1235 | Each request of the window adds, per block, what it differs by at the tail or the re-sent rate as its key is new to the session or not, the declaration, and the price of writing what was read where the arm changed a block the history kept; the lead-in adds nothing. |
| `ReplayBill.SizesAre` | dash/adaptcompaction.go:1124-1161 | A request with the very blocks of the last one of the window keeps its sizes, and any other is run. |
| `Replay.DeclUSD` | dash/adaptcompaction.go:1401-1417 | The double loop gives the closed form. |
| `Replay.DeclIsClosedForm` | dash/adaptcompaction.go:1448-1455 | Replaying with decl more tokens costs the replay with none plus the closed form, and changes nothing else. |
| `Replay.SameSizesCostNothing` | dash/adaptcompaction.go:1106-1235 | An arm whose sizes are what was sent on every request has delta zero and no busts. |
| `Replay.SmallerSavesUnlessItBusts` | dash/adaptcompaction.go:1208-1235 | With fair rates an arm that only sends less never costs more unless it busts a cache. |
| `OrderedLists.AdaptCompactionMerge` | dash/adaptcompaction.go:646-668 | The loops give each fixed component back after the kept candidate it followed. |
| `OrderedLists.MergeLosesNothing` | dash/adaptcompaction.go:646-668 | The result is a permutation of the candidates plus all fixed components. |
| `OrderedLists.SameOrderOnlyDrops` | dash/adaptcompaction.go:646-668 | With the candidates' order kept it is exactly the current list minus the dropped ones. |
| `OrderedLists.CandsInOrder` | dash/adaptcompaction.go:646-668 | The candidates stand in the order asked for. |
| `OrderedLists.BucketsAreKept` | dash/adaptcompaction.go:646-668 | Every fixed component follows the same kept candidate as before, in the same order as the others there. |
| `OrderedLists.PreserveUnmodelled` | config/form.go:545-559 | The loop re-inserts names at the index they held. |
| `OrderedLists.PreservesAndAdds` | config/form.go:545-559 | The written order is kept and exactly the stored names neither written, posted nor declared are added. |
| `OrderedLists.AddedLand` | config/form.go:545-559 | Every name added back stands at the index it was stored at, or at the end of a list not that long when it was added. |
| `OrderedLists.OneAdded` | config/form.go:545-559 | The one name nobody spoke for goes back to its index, or to the end of a shorter list. |
| `OrderedLists.AddsOnce` | config/form.go:545-559 | No name ends up in the list twice. |
| `OrderedLists.RestoresIff` | config/form.go:545-559 | The stored list comes back if and only if the post only left out such names. |

## Left out

- JSON parsing and writing (gjson, sjson, encoding/json): replaced by datatypes with local replacement; malformed JSON and write errors are not modelled.
- The tokenizer, sha256 and FNV: parameters, or keys taken as they are.
- `schema.CloneMessages`: its JSON round trip is taken as an exact copy; a message that does not survive the round trip is not modelled.
- `components/pipeline.go`: dedup keys, emitters, durations and bypass; a component does not write the report fields the engine alone owns.
- `apply/apply.go` cold block: the tracker is its last time per thread key; its eviction, the restart grace and bypassed turns are not modelled.
- `cheapmodel/cachecontrol.go`: the map is process-wide and keyed by a hash; keys here are the keys themselves, and tickets are numbered.
- `apply/breakpoint.go`: the counters of placed and refused marks; the number of bytes after the last mark is a parameter.
- Marks whose keys are spelled with escapes: the hot-path count ignores them by design.
- `apply/prefixsplit.go`: the token figure and hash it reports beside the split; blocks whose JSON does not decode.
- Splice.SpliceMessages: visits the edited messages in ascending order, as sorting the edit indices does; the sort itself is not modelled.
- Responses.Normalize: item ids and call arguments are carried as opaque text; the error strings of a refused stash are dropped.
- ResponsesRebuild.Rebuild: takes the slots and messages `Normalize` gives for the same body, as its only caller does.
- ResponsesPairs.NoPairIsParted: asks for call ids unique per side; with repeated ids the source looks at the last of each only.
- ChatRebuild.Normalize: what the chat schema reads of a whole message, tool calls included, is a parameter that may fail.
- ChatSpan.SpanIsReplacedExactly: lets a message recur only with the same bytes and one slot; the exact condition, by body index, is `ChatSpan.SpanIsReplacedIff`.
- ChatSurvivors.NoToolRoleIff: asks that no string tool_result is answered by two output messages, as its unique ids make sure unless a component copies one.
- CarriedSets.Sum: ids and token counts are unbounded where the source stores 32 bits.
- CarriedSlices.CarriedSetsOf: timestamps are natural numbers; SQL, the concurrency of the slices and cancellation are not modelled, and a slice's rows may come in any order.
- CarriedLedger.Ledger.PriceSession: the heaviest-set figures, session counts, coverage counters and the rewrite estimate are not modelled.
- Replay.ReplaySession: the sizes an arm gives a request are a parameter, free to depend on the requests before it; a session's lead-in comes before its window, and reproduction counts are not modelled.
- `adaptRun.eval`: the expand round trips and the unseen savings, sums of stored figures.
- OrderedLists.MergeLosesNothing: asks for candidates without repeats and none with an empty name, which the source's settings guarantee.
- `dash/archive.go`, HTTP routing, SSE, auth and SQL text: input and output plumbing.
- Model calls, prompts and provider transport in `cheapmodel/`: network clients.
- The tolerance-based ranking of searched options in `dash/adaptcompaction.go`: its comparison is not transitive, so it has no order to state.
- Preset tables, defaults, validation messages, logging and metrics: data and one-branch checks.
