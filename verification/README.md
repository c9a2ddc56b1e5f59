# InjOffice: verified models of the collaboration hub and the Word patcher

This project models two Go packages of InjOffice and proves what they promise.

**`go/collab`, real-time collaboration on one artifact.** Clients join rooms, see each other's selections, and submit batches of operations against a log in which every batch must name the head it was based on. `OpLog` is the log as a history of batches and resets, `MemoryStore` is the store that retains a bounded window of it, `HubMachine` is the hub as a transition system in which every thread advances from one lock, store call or send to the next, and `Hub` holds the hub's own methods. An interleaving is any schedule of those steps. `HubInvariant` says what each client can rebuild from what it was sent, `HubSteps` to `HubCalls` prove that every step keeps it, and `HubTheorems` draws the conclusions: exact delivery, agreeing views, mirrored tables, lock order, absence of deadlock. `HubProgress` adds that every schedule of the calls under way ends with all locks free, `HubCarried` that no call ends before it has been carried out, `HubStore` that each room's log is a run of the log, so that what is proved of runs holds of it, `HubFiles` that announced file changes carry real watermarks, `HubCatchUp` that an answer read without the room lock joins up with what is pushed meanwhile, and `HubLink` that the locked steps of the machine do to the tables what the methods of `Hub` do.

**`go/docxpatch`, surgical editing of Word documents.** Four parts of it:

- the paragraph patcher (`Strings`, `Markup` and the `Docx` modules): a scanner of the document text, a reader and a writer of runs, and splicing from the bottom up, proved to be an edit of the list of paragraphs that a reader sees, and `DocxReading`, what is read from documents written elsewhere;
- the anchored tree and the identity allocator (`Xml` modules, `Identity`, `IdAllocator`, `Reextraction`, `PathIdentity`): byte intervals, paths as addresses, and exactly when all ids survive another extraction of the same objects;
- range edits of runs (`Utf16`, `Run` modules, `TextSplices`, `Hyperlink`, `LinkStretches`): formatting and linking a range of UTF-16 code units (section 2.1 of RFC 2781), specified as one attribute per code unit;
- the checkers: the native document contract (`NativeContract` to `NativeValidation`, with `NativeEntities` to `NativeMeaning` for what it means), the attestation of approximate layout (`Approximation`, `Disclosure`) and the integer geometry of grouped shapes and crops (`DrawingScale`; sections 20.1.7.6 and 20.1.8.14 of ECMA-376 Part 1).

Functions specify, methods and classes do what the Go code does in place and are proved equal to the specification, and lemmas say what the specification means. A Go error return is a `Result` or an `Option`. Clocks, random ids, hashes and XML tokens are parameters.

Where the code and its own comments differ, the model follows the code:

- `Apply` says that its edits never invalidate each other. Edits of different paragraphs never do, and neither do insertions after one paragraph, however many; they end up in the reverse of the order in which they are made (`DocxEdits.InsertionsStack`). A list of edits comes out right on every document that has a place for it if and only if only insertions after a paragraph precede another edit of it (`DocxEverywhere.AppliesEverywhere`). On a given document, after a set, a delete or an insertion in front of the first paragraph, another edit of that paragraph finds it if and only if its text is as long as before (`DocxEdits.FitsAfter`, `DocxApply.StaleExtent`), and a deletion, or a set of a paragraph that is still there, is right if and only if it does (`DocxApply.StaleDeletion`, `DocxPromise.StaleSetting`). Several insertions in front of the first paragraph are right nevertheless, as many as there are, if and only if that paragraph is not an empty tag (`DocxPromise.FrontAgain`); in front of `<w:p/>` two of them write `<w:p><>`, which is not well-formed (`DocxPromise.EmptyTwice`). `DocxReplace.DeletingTwice` says what deleting a paragraph twice does instead.
- `Apply` calls its ordering stable. The exchange sort is not (`DocxApply.SortUnstable`), which cannot be observed while indices differ (`DocxApply.OrderIrrelevant`).

What the code is for holds in other places only under a condition, which is proved to be the exact one:

- Extracting the same objects again, with the first result as the previous document, keeps all ids if and only if no two objects are listed under the same kind, part and native key (`Reextraction.ReextractionIsStable`). Two unmodelled elements with the same content in one paragraph are, and they exchange their ids (`Reextraction.TwinsSwap`). After an edit, with places retained, an object whose fingerprint has changed keeps its id by its path, and all ids survive if and only if no object is taken for a later one (`PathIdentity.EditsKeepIds`).
- Paths serve as addresses of elements, but the sibling counter is kept per expanded name while two namespaces share one prefix. Paths tell all nodes apart, and find them all, if and only if different names of siblings are written differently (`XmlPaths.DistinctExactly`, `XmlPaths.FoundExactly`). Two guards make this work where it matters. A story part in which a name such as `p`, `r` or `t` occurs outside Word's namespace is refused before any path in it is looked up (go/docxpatch/native_extract.go:925-947), and so is a settings part with a list of its own (go/docxpatch/native_pagination_settings.go:608-621); in a part that passes, every node whose chain of names is in the list has a path of its own and is found by it (`XmlGuard.GuardedPaths`). The settings list does not have every name that is looked up: `XmlSettings.RepeatsCollide` is a settings part, accepted by parser and guard, in which a repeated foreign `zoom` is looked up as Word's own.
- The comparison of links after a write tells characters and targets apart and nothing else, as long as no empty text of another target stands between two texts of one target (`LinkStretches.EmptyTextsShow`, `LinkStretches.ProjectionExact`).

Rooms are limited to 64 members; the per-client index of rooms has no such limit (`Hubs.IndexSetsAreUnbounded`).

## Model

| member | source | states |
|---|---|---|
| OpLog.SinceReplays | go/collab/memory.go:63-107 | an accepted catch-up from n carries exactly the numbers max(0, n)+1 to head in order, crosses no reset, and replayed on the snapshot at n gives the snapshot at head |
| OpLog.OpsAfterExact | go/collab/memory.go:92-106 | an entry is handed out for a number if and only if the history has that batch there, in increasing order |
| OpLog.RunValid | go/collab/memory.go:124-160 | in every reachable log the watermark is at most the head and everything after it is a batch |
| OpLog.RunGrows | go/collab/memory.go:39-60 | within an incarnation the history only grows at its end and the watermark never falls |
| OpLog.OneWinnerPerBase | go/collab/memory.go:39-60 | in any run two accepted submissions have different, increasing bases |
| OpLog.WinnerIsCommitted | go/collab/memory.go:39-60 | the accepted submission for a base keeps number base+1 for the rest of the incarnation |
| OpLog.HistoryIs | go/collab/memory.go:39-60 | the log holds nothing else: every number is a reset, or the batch of a submission whose base is the number before it |
| OpLog.ResetFences | go/collab/memory.go:149-160 | after a reset, whoever still holds an older head can neither append nor catch up, whatever happened in between |
| OpLog.WatermarkIs | go/collab/memory.go:124-160 | in any run the watermark is above n if and only if the log was reset when it had come to n, or saved past n when it had gone past n |
| OpLog.SinceAccepts | go/collab/memory.go:80-106 | in a valid log a catch-up from n is accepted if and only if max(0, n) lies between max(saved, head-5000) and the head, and then it is complete |
| OpLog.CatchUpAccepted | go/collab/memory.go:63-107 | over runs: the holder of n is told to reload if and only if the log never came to n, has gone on by more than 5000 since, or was reset or saved past n |
| MemoryStores.RetainedWindow | go/collab/memory.go:39-60 | the watermark lies between 0 and the head, and the retained entries are exactly max(saved, head-5000)+1 to head |
| MemoryStores.AppendKeepsWindow | go/collab/memory.go:49-59 | appending and evicting keeps the window in step with the history |
| MemoryStores.MarkKeepsWindow | go/collab/memory.go:124-146 | dropping what a new watermark covers keeps the window in step with the history |
| MemoryStores.WindowAnswersSince | go/collab/memory.go:86-106 | for an admitted number the retained entries past it are the whole answer |
| MemoryStores.EntriesPast | go/collab/memory.go:98-106 | the filtering loop returns the later part of the window |
| MemoryStores.MemoryStore.Append | go/collab/memory.go:39-60 | compare-and-swap: the batch is appended if and only if the base is the head, otherwise the head is returned; no other room changes |
| MemoryStores.MemoryStore.Since | go/collab/memory.go:63-107 | the answer of the log: refused exactly when max(0, n) is outside [max(saved, head-5000), head], and nothing changes |
| MemoryStores.MemoryStore.LogState | go/collab/memory.go:110-121 | head and watermark of the room, (0, 0) for an unknown one, without creating it |
| MemoryStores.MemoryStore.MarkSaved | go/collab/memory.go:124-146 | the watermark rises to min(n, head) and never falls; unknown rooms stay unknown |
| MemoryStores.MemoryStore.Reset | go/collab/memory.go:149-160 | a reset takes a number of its own and fences everything before it, also in a room that had no log |
| MemoryStores.MemoryStore.Forget | go/collab/memory.go:163-171 | the room's log starts again at zero, other rooms keep theirs |
| HubCalls.StepKeeps | go/collab/hub.go:69-350 | every step of every call, taken by any thread in any state of the invariant, keeps it |
| HubCalls.RunKeeps | go/collab/hub.go:69-350 | every state of every interleaving satisfies the invariant |
| HubMembership.FreshJoinKnows | go/collab/hub.go:100-124 | a newcomer will know everyone from its reply, and everyone who is told of it will know the room with it |
| HubMembership.LeftKnows | go/collab/hub.go:142-164 | whoever stays, once told, knows the room without the one who left |
| HubTheorems.ViewsAgree | go/collab/hub.go:84-132 | in every interleaving, whenever a room is unlocked, each member's own log rebuilds exactly the other members and their selections |
| HubTheorems.DeliveryIsExact | go/collab/oplog.go:37-70 | in every interleaving, whenever a room is unlocked, the batches pushed to a member together with its own accepted ones are exactly the committed batches since the head its join returned: in order, no gap, no duplicate, none of its own pushed |
| HubTheorems.SentToMembersOnly | go/collab/hub.go:114-131 | an event is sent only to a current member of the live room it is about, under that room's lock |
| HubTheorems.CommittedBeforeSent | go/collab/oplog.go:52-70 | a batch is announced only after the log holds it under its final number |
| HubTheorems.TablesMirror | go/collab/hub.go:84-112 | in every interleaving k is in the client's index set if and only if room k exists and holds the client; index sets and (when the hub lock is free) rooms are never empty, and rooms never exceed 64 members |
| HubTheorems.LockOrder | go/collab/hub.go:54-67 | whoever waits for the hub lock holds no lock; whoever waits for a room holds the hub lock; a pinned room is always the one its key names |
| HubTheorems.NoDeadlock | go/collab/hub.go:177-216 | while any call is unfinished, some unfinished call can take a step |
| HubTheorems.CallsProgress | go/collab/hub.go:177-216 | every step brings its own call closer to its end and moves no other call, so a call takes finitely many steps |
| HubTheorems.LocksReleased | go/collab/hub.go:54-67 | when every call has returned, on whatever path, no lock is held |
| HubProgress.EveryScheduleEnds | go/collab/hub.go:54-350 | from every reachable state, any plan of steps that starts no new call and goes on while some step is possible comes to a state where all calls have returned and all locks are free |
| HubProgress.NoEndlessPlan | go/collab/hub.go:54-350 | no plan of steps of the calls under way goes on forever, fair or not |
| HubCarried.StepCarries | go/collab/hub.go:84-350 | a step of a call that is not cancelled leaves the call under way, or has done what the call is for: the member is in the room under its name, or the room holds 64 others; it is out of the room, or of all rooms; the selection is shown, the batch committed if its base is the head, the log saved, reset or forgotten; and every other member is owed its event |
| HubCarried.CallsAreCarried | go/collab/hub.go:84-350 | in every run, a call that was under way still is, has been carried out since, or was a submission cancelled |
| HubCarried.CallBegins | go/collab/hub.go:253-275 | a started call is under way, and a file change is under way with the watermark it has read |
| HubCatchUp.CatchUpJoinsUp | go/collab/oplog.go:75-102 | an answer read at any moment after the room was unlocked, followed by the pushed and own batches numbered above it, is exactly the committed batches after the number asked for, unless the log was forgotten in between |
| HubStore.LogIsRun | go/collab/oplog.go:37-135 | in every interleaving a room's log is the run of the submissions of members, saves and resets made on it since it was last forgotten, by request or by the last member leaving |
| HubStore.ReloadsExactly | go/collab/oplog.go:75-102 | in every interleaving a catch-up from n is answered by a reload in exactly the cases of that run |
| HubFiles.TellsSaved | go/collab/hub.go:258-281 | in every interleaving whoever is told of a changed file is told a watermark that the room's log has had |
| HubLink.JoinStepIs | go/collab/hub.go:84-131 | the locked step of a join in any thread makes the tables of the whole call, and what it then owes is what the call sends; a full room changes nothing |
| HubLink.LeaveStepIs | go/collab/hub.go:142-164 | the same for leaving one room |
| HubLink.SweepStepIs | go/collab/hub.go:191-208 | the same for each room of LeaveAll, on top of what is owed already |
| HubLink.PresenceStepIs | go/collab/hub.go:220-253 | the same for a new selection; a stranger changes nothing |
| HubLink.NotifyStepIs | go/collab/hub.go:258-281 | the step of a file change under the room lock owes the news once to every member but its origin, and changes no table |
| HubLink.SendPays | go/collab/hub.go:341-350 | a send pays exactly one owed message, into the log of the client it is owed to, and leaves the tables alone |
| Hubs.LeaveOrderIrrelevant | go/collab/hub.go:177-216 | leaving rooms one at a time, in any order, gives the same rooms, index and multiset of left events as leaving them at once |
| Hubs.LeaveAllLeavesAll | go/collab/hub.go:177-216 | after LeaveAll the client is in no room, every other membership is untouched, and only rooms it was alone in are gone |
| Hubs.LeaveConsistent | go/collab/hub.go:322-339 | leaving any set of rooms keeps rooms and index mirrored, nonempty and bounded |
| Hubs.JoinConsistent | go/collab/hub.go:84-112 | an admitted join keeps rooms and index mirrored, nonempty and bounded |
| Hubs.JoinShows | go/collab/hub.go:84-119 | after a join the room shows the client under the name of that join with the selection it had, everybody else as before, and a newcomer is announced so to each member |
| Hubs.JoinAgain | go/collab/hub.go:93-99 | joining again under another name changes the name and announces nothing |
| Hubs.JoinLeaveRestores | go/collab/hub.go:69-164 | joining and leaving again restores rooms and index exactly |
| Hubs.IndexSetsAreUnbounded | go/collab/hub.go:84-112 | for every n there are n admitted joins that leave n rooms in one client's index set |
| Hubs.Hub.Join | go/collab/hub.go:69-132 | a full room refuses newcomers and changes nothing; otherwise the member is in both tables, keeps an earlier selection, the others are told only the first time, and the answer lists the others and the log position |
| Hubs.Hub.RemovePeer | go/collab/hub.go:322-339 | the client leaves both tables, and the log is forgotten exactly when the room empties |
| Hubs.Hub.Leave | go/collab/hub.go:142-164 | leaving one room equals the set form for that room, also when there is nothing to leave |
| Hubs.Hub.CollectRooms | go/collab/hub.go:191-208 | all rooms are emptied of the client before anybody is notified, and what is still to be told is recorded per room |
| Hubs.Hub.NotifyRooms | go/collab/hub.go:209-216 | every remaining member of every left room gets exactly one left event |
| Hubs.Hub.LeaveAll | go/collab/hub.go:177-216 | equals the set form for the client's whole index set |
| Hubs.Hub.SendTo | go/collab/hub.go:341-350 | every peer but one gets exactly one copy, whatever the order |
| Hubs.Hub.Presence | go/collab/hub.go:220-253 | only members may; the selection is stored and every other member told once |
| Hubs.Hub.Submit | go/collab/oplog.go:37-70 | membership, then compare-and-swap, then fan-out of the committed entry to all others; every refusal leaves tables and sends alone |
| DocxText.UnescapeEscape | go/docxpatch/docxpatch.go:198-206 | unescaping undoes escaping for every string, tags and entities spelled out included |
| DocxText.ParaText | go/docxpatch/docxpatch.go:171-187 | the reading loop yields the text of all tokens, leftmost first |
| DocxText.BuildRuns | go/docxpatch/docxpatch.go:237-267 | the writing loop yields the run with breaks, tabs and escaped stretches |
| DocxText.RunsWritten | go/docxpatch/docxpatch.go:237-267 | what is written: the run properties, then each stretch of words escaped in a text tag that keeps its white space, with break and tab tags between |
| DocxText.TextRoundTrip | go/docxpatch/docxpatch.go:171-267 | reading written runs gives the text back, for every text and all run properties free of text tokens |
| DocxText.ReadRuns | go/docxpatch/docxpatch.go:171-287 | the same with paragraph properties in front |
| DocxReading.UnescapeReads | go/docxpatch/docxpatch.go:203-206 | the five entities read as their characters, every other character and any other ampersand as itself |
| DocxReading.ReadItems | go/docxpatch/docxpatch.go:171-187 | content put together from text elements with any start tag, empty ones, tabs, line breaks, carriage returns and other markup reads as the unescaped texts, tabs and breaks, piece by piece |
| DocxReading.ElementReads | go/docxpatch/docxpatch.go:97-99 | an element with any start tag is found as a whole up to its first own closing tag |
| DocxReading.OwnPropertiesRead | go/docxpatch/docxpatch.go:98 | a paragraph's own properties are those at the very start of its content |
| DocxReading.RunPropertiesRead | go/docxpatch/docxpatch.go:99 | the properties carried over are those that directly follow the first run's start tag |
| DocxScan.SegmentKeepsText | go/docxpatch/docxpatch.go:111-169 | taking a document apart into gaps and paragraphs loses nothing |
| DocxScan.SegmentShaped | go/docxpatch/docxpatch.go:111-169 | no paragraph start is overlooked in a gap, and no closing tag lies inside a paragraph |
| DocxScan.SegmentOfText | go/docxpatch/docxpatch.go:111-169 | a document put together from whole gaps and paragraphs is taken apart the same way |
| DocxParas.ScanParas | go/docxpatch/docxpatch.go:111-169 | the scanner reports exactly the extents of those paragraphs with their table flags |
| DocxParas.Positions | go/docxpatch/docxpatch.go:112-130 | the search loop finds all occurrences |
| DocxParas.CountBefore | go/docxpatch/docxpatch.go:131-139 | counts the positions before a point |
| DocxParas.BelowIsCount | go/docxpatch/docxpatch.go:112-149 | counting the listed positions counts the occurrences in the text |
| DocxStyle.StyleKept | go/docxpatch/docxpatch.go:271-287 | a style declared in the kept properties is still found when new runs follow them |
| DocxStyle.RewriteOk | go/docxpatch/docxpatch.go:271-287 | a rewritten paragraph is again one paragraph to the scanner |
| DocxApply.OrderIrrelevant | go/docxpatch/docxpatch.go:293-371 | edits of different indices are made in the same order however they are given, so the result is the same |
| DocxEdits.OneMore | go/docxpatch/docxpatch.go:320-369 | an edit with no earlier edit below it changes the text of its own paragraph and nothing else |
| DocxEdits.FitsAfter | go/docxpatch/docxpatch.go:320-369 | exactly which edits leave the next edit of the paragraph a valid extent: all insertions after it; a set or an insertion in front only when the text keeps its length; no deletion |
| DocxEdits.InsertionsStack | go/docxpatch/docxpatch.go:332-359 | insertions after one paragraph leave it alone and stand in the reverse of the order in which they are made |
| DocxEverywhere.AppliesEverywhere | go/docxpatch/docxpatch.go:289-371 | on every document that has a place for the edits the patched text is the edited list, if and only if only insertions after a paragraph precede another edit of it |
| DocxApply.SortBottomUp | go/docxpatch/docxpatch.go:308-318 | the exchange sort orders by descending index, keeps the edits, and puts equal indices where its swaps put them |
| DocxApply.SortUnstable | go/docxpatch/docxpatch.go:308-318 | two edits of one index in front of one of a higher index come out in reverse order |
| DocxApply.RewriteParagraph | go/docxpatch/docxpatch.go:271-287 | refused exactly for paragraphs with non-text content; else tag and properties verbatim around the new runs |
| DocxApply.CloneParagraph | go/docxpatch/docxpatch.go:332-359 | the inserted paragraph has its neighbour's tag and properties |
| DocxApply.ApplyEdit | go/docxpatch/docxpatch.go:320-369 | the loop's body: one splice at the paragraph's first extent whatever the text holds there by now, or the refusal, or a slice past the end |
| DocxApply.SettledStep | go/docxpatch/docxpatch.go:320-369 | an edit that finds its paragraph as long as it was is that edit of the list of paragraphs, although the text above has changed; it is refused exactly for a set over non-text content |
| DocxApply.StaleExtent | go/docxpatch/docxpatch.go:289-369 | an edit finds its paragraph at the extent it uses if and only if the paragraph is still as long as it was |
| DocxApply.StaleDeletion | go/docxpatch/docxpatch.go:360-365 | a deletion takes away exactly its paragraph if and only if it finds it as long as it was |
| DocxPromise.StaleSetting | go/docxpatch/docxpatch.go:320-331 | a set of a tidy paragraph that is still there gives the edited list if and only if the paragraph is as long as it was |
| DocxPromise.StaleSetCoincides | go/docxpatch/docxpatch.go:320-331 | after a deletion there is no such converse: a set of the deleted paragraph that leaves the edited list |
| DocxApply.FrontStep | go/docxpatch/docxpatch.go:332-359 | one more insertion in front of a tidy paragraph that is not an empty tag is that edit of the list, although the paragraph has moved away from its extent |
| DocxPromise.FrontAgain | go/docxpatch/docxpatch.go:332-359 | two or more insertions in front of a tidy first paragraph give the edited list if and only if it is not an empty tag |
| DocxPromise.EmptyTwice | go/docxpatch/docxpatch.go:332-359 | the input: two insertions in front of `<w:p/>` succeed with a text in which `<w:p>` is followed by `<>` |
| DocxLoose.LooseTwice | go/docxpatch/docxpatch.go:97-101 | why tidy: with run properties that are an empty tag with attributes, behind own properties that hold a closing tag of run properties, and enough content, two insertions in front do not give the edited list |
| DocxProps.RewriteTwice | go/docxpatch/docxpatch.go:271-287 | rewriting a rewritten tidy paragraph is rewriting the paragraph: its properties are found again in what was written |
| DocxProps.CutKeeps | go/docxpatch/docxpatch.go:332-359 | its properties are found again in any cut of that text at the old length of its content |
| DocxApply.Apply | go/docxpatch/docxpatch.go:293-371 | for every document and every list of edits: sorted, made one after the other at the extents of the unedited document, up to the first failure |
| DocxApply.AppliesEdits | go/docxpatch/docxpatch.go:289-371 | when every edit works (finds its paragraph as long as it was, or inserts once more in front of a first paragraph that is not an empty tag): the patcher fails exactly when one of the edits cannot be made, and else leaves the one-pass edit that copies every gap verbatim |
| DocxExtract.Extract | go/docxpatch/docxpatch.go:209-233 | the reading loop lists style, text, table flag and non-text flag of every paragraph |
| DocxReading.ReadsDocument | go/docxpatch/docxpatch.go:111-234 | from a document put together of gaps, empty paragraphs and paragraphs of such content, with any attributes, exactly its paragraphs are listed, each with the text that its content means |
| DocxReading.StyleReads | go/docxpatch/docxpatch.go:96 | the style is the value in the first style tag |
| DocxReading.NoStyleRead | go/docxpatch/docxpatch.go:96 | without a style tag there is no style |
| DocxReading.TablesCount | go/docxpatch/docxpatch.go:111-139 | a table's start tag opens a level and its end tag closes one |
| DocxReading.MarkersAre | go/docxpatch/docxpatch.go:103-107 | non-text content is exactly the twelve kinds of markup |
| DocxReading.ParagraphIs | go/docxpatch/docxpatch.go:208-235 | what is listed of a paragraph: its style or none, its text, whether it is in a table, and whether it holds a non-text marker |
| DocxExtract.TableHere | go/docxpatch/docxpatch.go:131-149 | a paragraph's table flag is the nesting depth summed over what precedes it |
| DocxListEdit.RewriteReads | go/docxpatch/docxpatch.go:271-287 | a rewritten or cloned paragraph reads as before with another text |
| DocxListEdit.ExtractAfterApply | go/docxpatch/docxpatch.go:209-371 | when every edit works: extracting the applied document gives the edited list: set replaces a text, each insert_after adds one paragraph next to its anchor, delete removes one, all others keep style, text and flags |
| DocxListEdit.FrontsExtract | go/docxpatch/docxpatch.go:209-371 | any number of insertions in front of a regular, tidy first paragraph that is not an empty tag are read back in front of the list, in the reverse of the order in which they are made |
| DocxListEdit.CutTag | go/docxpatch/docxpatch.go:111-169 | a document with a tag cut off in front of a paragraph: deleting that paragraph makes one that was not there |
| DocxReplace.ReplaceText | go/docxpatch/docxpatch.go:378-402 | fails exactly for an empty search text; counts changed and skipped paragraphs and applies one set edit per changed one |
| DocxReplace.ReplaceAllIs | go/docxpatch/docxpatch.go:378-402 | a text is cut at its leftmost occurrences, one after the other, and joined by the replacement; the last part has none left |
| DocxReplace.CountsAre | go/docxpatch/docxpatch.go:378-402 | the counts are the numbers of matching paragraphs of text only and of other matching paragraphs |
| DocxReplace.ReplaceReads | go/docxpatch/docxpatch.go:378-402 | in the list exactly the matching paragraphs without non-text content change, and they get every occurrence replaced |
| DocxReplace.ReplaceThenExtract | go/docxpatch/docxpatch.go:209-402 | extracting the document after a replacement gives the list with every occurrence replaced in exactly the matching paragraphs of text only |
| DocxReplace.InsertThenDelete | go/docxpatch/docxpatch.go:332-365 | deleting an inserted paragraph restores the document byte for byte |
| DocxReplace.DeletingTwice | go/docxpatch/docxpatch.go:289-371 | the patcher, given two deletions of one paragraph, also cuts off as many characters of what follows, or runs past the end of the text |
| Identity.SaltsBounded | go/docxpatch/native_extract.go:1723-1754 | at most as many salts fail as ids are taken, so the salting loops end |
| Identity.IssuedOnce | go/docxpatch/native_extract.go:1697-1759 | within a run no id is issued twice, nor one issued before it |
| Identity.NamelessRepeats | go/docxpatch/native_extract.go:1756-1758 | a request with neither node nor native key repeats its id: the excluded case |
| Identity.LiveAtStart | go/docxpatch/native_extract.go:1604-1688 | the index of a revision with unique ids has each id in one place |
| Identity.FifoMatching | go/docxpatch/native_extract.go:1734-1755 | in a run without native keys the n-th request for a fingerprint gets the n-th previous id with it, and requests beyond get ids no previous object had |
| Reextraction.FirstComeFirstServed | go/docxpatch/native_extract.go:1697-1745 | in any run, whatever comes before, a request whose native key is not listed or is used up gets the first id of its fingerprint that has not been issued |
| Reextraction.Reproduces | go/docxpatch/native_extract.go:1604-1759 | with or without native keys: indexed by a revision that lists the ids of a run per fingerprint in order, the same requests get the same ids, if and only if none finds under its native key an object that is yet to come |
| Reextraction.ReextractionIsStable | go/docxpatch/native_extract.go:1604-1759 | extracting the same objects again, with native keys listed as the code lists them, changes no id if and only if no two objects are listed under the same kind, part and native key |
| Reextraction.TwinsSwap | go/docxpatch/native_extract.go:1805-1829 | two unmodelled elements with the same content in one paragraph exchange their ids in the next extraction |
| PathIdentity.KeptByPath | go/docxpatch/native_extract.go:1697-1772 | in any run over a revision, a request that neither native key nor fingerprint decides keeps the id recorded at its kind, part and path if and only if places are retained, exactly one record stands there and its id is not empty and not yet issued; otherwise its id is new: the hash of its native key, or of its path if it has none, and if that is taken the first free salted one |
| PathIdentity.EditsKeepIds | go/docxpatch/native_extract.go:1761-1772 | after an edit that leaves every object in its place, extraction with places retained keeps all ids if and only if no object is taken for a later one: none later had its native key, and none its fingerprint unless it kept its own native key or fingerprint |
| IdAllocators.IdAllocator.Remember | go/docxpatch/native_extract.go:1608-1627 | every previous id is reserved, queued under its fingerprint, and its path kept only while unambiguous |
| IdAllocators.IdAllocator.IndexPreviousIDs | go/docxpatch/native_extract.go:1604-1688 | the index is that of all records in order |
| IdAllocators.IdAllocator.PreviousQueued | go/docxpatch/native_extract.go:1735-1745 | the queue is consumed up to its first unissued id |
| IdAllocators.IdAllocator.PreviousPathCandidate | go/docxpatch/native_extract.go:1761-1772 | an unambiguous unissued id at the same path, only when paths may identify |
| IdAllocators.IdAllocator.PreviousMatch | go/docxpatch/native_extract.go:1708-1722 | fingerprint first, then path |
| IdAllocators.IdAllocator.Salted | go/docxpatch/native_extract.go:1723-1754 | the plain id, or the first salted one that is not taken |
| IdAllocators.IdAllocator.ObjectID | go/docxpatch/native_extract.go:1697-1759 | every branch of the allocator, state and id, equals the specified choice |
| XmlParse.ParsedIsNested | go/docxpatch/native_extract.go:791-884 | every interval strictly contains those of its children, which are disjoint and in document order |
| XmlParse.ParsedIsPlaced | go/docxpatch/native_extract.go:834-851 | every node carries its parent's path, its name and its number among like-named siblings, and all limits hold everywhere |
| XmlParse.ParsedKeepsMarks | go/docxpatch/native_extract.go:811-884 | the tree read in document order is the stream of starts and ends, with names, attributes and offsets |
| XmlTexts.ParsedKeepsText | go/docxpatch/native_extract.go:862-869 | every element of a parsed tree has exactly the text that stands between its own tags, joined in order |
| XmlTree.StartRefused | go/docxpatch/native_extract.go:812-852 | an element is refused if and only if its name is empty or oversized, it has more than 256 attributes or two of one name, or it is one too many, too deep, a second root or has a path of more than 4096 characters |
| XmlTree.OtherTokens | go/docxpatch/native_extract.go:862-878 | comments are inert, white space may stand outside the root and other text may not, a directive is refused, and an instruction is accepted only if its target is xml in any case and no root has begun |
| XmlTree.TokenStartIs | go/docxpatch/native_extract.go:899-907 | an element begins at the first opening bracket of its token |
| XmlTree.PathSpelled | go/docxpatch/native_extract.go:909-923 | the prefixes in paths, shared by the two Word and by the two relationship namespaces |
| XmlTree.OtherPathSpelled | go/docxpatch/native_extract.go:909-923 | in every other namespace the prefix in a path is ns followed by the digest of the namespace |
| XmlWrite.ReadsBack | go/docxpatch/native_extract.go:791-884 | every well-placed tree within the limits is the result of parsing its own tags and texts |
| XmlPaths.SiblingCollision | go/docxpatch/native_extract.go:845-847 | siblings share a path if and only if their different expanded names have the same qualified name and number |
| XmlPaths.FoundExactly | go/docxpatch/native_format.go:794-807 | looking a node up by its path returns that node, for every node of the tree, if and only if different names of siblings are written differently |
| XmlPaths.DistinctExactly | go/docxpatch/native_extract.go:845-847 | different positions have different paths if and only if different names of siblings are written differently |
| XmlGuard.StoryPasses | go/docxpatch/native_extract.go:925-947 | a story part passes the guard if and only if every node with one of the seventeen known local names is in Word's namespace, but for nodes on whose way an equation stands directly in a paragraph |
| XmlGuard.SettingsPasses | go/docxpatch/native_pagination_settings.go:608-621 | the settings part passes its guard if and only if every node with one of its names is in Word's namespace |
| XmlGuard.GuardedPaths | go/docxpatch/native_format.go:794-807 | in a part that passes its guard, every node whose chain of names is in the guard's list has a path of its own and is found by it, from the root or from any such node above |
| XmlSettings.MarkupAt | go/docxpatch/native_pagination_settings.go:608-621 | the text of the settings part has the five start tags and the end tags at the offsets of its tokens |
| XmlSettings.RepeatsCollide | go/docxpatch/native_approximation.go:318-326 | a settings part that parser and guard accept: both repeats of `zoom`, Word's and a foreign one, are diagnosed at one path, which leads to Word's |
| XmlParser.StartElement | go/docxpatch/native_extract.go:812-853 | the element is pushed or refused for the first limit it breaks |
| XmlParser.AttrsDistinct | go/docxpatch/native_extract.go:819-825 | true if and only if no attribute name repeats |
| XmlParser.ParseXml | go/docxpatch/native_extract.go:791-884 | the stack machine yields the specified tree or error |
| Utf16.OffsetExists | go/docxpatch/native_format.go:811-826 | an offset is found if and only if it lies in the text and cuts no surrogate pair |
| Utf16.OffsetSplits | go/docxpatch/native_format.go:811-826 | the prefix found has exactly that many code units, and the encoding splits with the text |
| Utf16.PrefixOffset | go/docxpatch/native_format.go:811-826 | every prefix is found from its own length in code units |
| Utf16.OffsetOf | go/docxpatch/native_format.go:811-826 | the scan, with its early exit, yields the specified offset |
| Utf16.CountUnits | go/docxpatch/native_mutate.go:1183-1192 | the counter yields the length of the encoding |
| Utf16.DecodeEncode | go/docxpatch/native_mutate.go:1183-1192 | the encoding decodes to the text's code points |
| RunTarget.ResolveSpan | go/docxpatch/native_format.go:495-531 | the units selected are exactly those that the range numbers in the target's own encoding, all of them without a range; refused exactly for a missing target, a policy, a run without text, a range past the target, an empty target or a stale fingerprint |
| RunTarget.RunSelected | go/docxpatch/native_format.go:515-531 | a range (a, b) of a run selects the units a to b-1 of its own encoding, at its place in the paragraph, and fails only for the stated reasons |
| RunSplit.ThreeRepaints | go/docxpatch/native_format.go:624-650 | splitting a run in up to three keeps its text and changes the properties of exactly the units between the cuts |
| RunFormat.FormatsExactly | go/docxpatch/native_format.go:563-603 | on success exactly the units in [start, end) carry patched properties, every other keeps its own, and the text is unchanged |
| RunFormat.SucceedsExactly | go/docxpatch/native_format.go:563-603 | formatting succeeds if and only if no end cuts a surrogate pair and every touched run can be split and holds text |
| RunFormat.SplicesDisjoint | go/docxpatch/native_format.go:563-599 | the splices are disjoint and in document order |
| RunFormat.FormatRunElement | go/docxpatch/native_format.go:608-651 | the replacement of one run, or why there is none |
| RunFormat.ParagraphSplices | go/docxpatch/native_format.go:563-603 | the loop yields the splices of exactly the touched runs, or the first error, or that nothing was touched |
| RunSource.FormatsSource | go/docxpatch/native_format.go:563-603 | from the range to the source: the splices can be applied to the part, and applied they write exactly the touched runs anew and leave every other character in place; read as runs, the result is the paragraph with exactly the units in the range patched |
| TextSplices.BackToFront | go/docxpatch/native_mutate.go:823-850 | making all splices at once is making them one at a time from the back |
| TextSplices.OneOrder | go/docxpatch/native_mutate.go:824 | splices that start at different places have one sorted order only |
| TextSplices.SameStart | go/docxpatch/native_mutate.go:824-830 | an insertion and a replacement at one place are accepted in one sorted order and refused in the other |
| TextSplices.ApplyTextSplices | go/docxpatch/native_mutate.go:823-850 | succeeds if and only if the splices lie one behind the other inside the part, which never grows beyond 16 MiB on the way, with the replaced part; otherwise the error of the first splice refused |
| RunCheck.AcceptedIsApplied | go/docxpatch/native_format.go:857-877 | in a paragraph that passes the check every unit of the range carries the patch |
| RunCheck.FormattedIsAccepted | go/docxpatch/native_format.go:857-877 | whatever the splitter produces passes the check and has the old text |
| RunCheck.ValidateFormatResult | go/docxpatch/native_format.go:857-877 | passes if and only if every overlapping run lies in the range with the patch applied and the text is as expected |
| Hyperlinks.LinksExactly | go/docxpatch/native_hyperlink.go:166-232 | the new target is expected on exactly the selected units, the old one elsewhere, over unchanged text |
| Hyperlinks.LinkSucceedsExactly | go/docxpatch/native_hyperlink.go:168-193 | linking succeeds if and only if no surrogate pair is cut and every selected run may be linked |
| Hyperlinks.ExpectedLinks | go/docxpatch/native_hyperlink.go:166-232 | the segment loop yields those texts and targets, or the first refusal |
| Hyperlinks.LinkProjection | go/docxpatch/native_hyperlink.go:258-276 | the projection loop writes one length-prefixed record per stretch of equal targets |
| Hyperlinks.ProjectionTellsApart | go/docxpatch/native_hyperlink.go:258-276 | equal projections mean that every character has the same target on both sides |
| Hyperlinks.SameCharactersSameProjection | go/docxpatch/native_hyperlink.go:258-276 | the converse, for lists without empty texts |
| Hyperlinks.EmptyTextSplits | go/docxpatch/native_hyperlink.go:258-276 | with an empty text the converse fails: a concrete pair of lists |
| LinkStretches.EmptyTextsShow | go/docxpatch/native_hyperlink.go:258-276 | empty texts leave no trace in the projection if and only if none has another target than the two texts around it when these have one target |
| LinkStretches.ProjectionExact | go/docxpatch/native_hyperlink.go:258-276 | two lists without such empty texts project alike if and only if every character has the same target in both |
| Hyperlinks.HyperlinkRelationship | go/docxpatch/native_hyperlink.go:303-317 | the first existing external hyperlink to the target is reused; without one the id is rIdLinkN for the least N whose id is not in use |
| Hyperlinks.FreshPrefix | go/docxpatch/native_hyperlink.go:156-159 | the shortest injLink followed by x's that does not occur in the part |
| ContractLedger.AdvanceJoin | go/docxpatch/native_contract.go:649-800 | seeing two parts one after the other is seeing their concatenation: uniqueness, budget and lookups compose |
| ContractLedger.Then | go/docxpatch/native_contract.go:1421-1431 | a verdict survives composition even though the record is only exact while there is no issue |
| NativeValidators.NativeValidator.Add | go/docxpatch/native_contract.go:1421-1431 | at most one more issue, only below the cap; below it the issue is then listed; a list free of repetitions stays so, and none is empty once something was reported |
| NativeValidators.NativeValidator.Collection | go/docxpatch/native_contract.go:1584-1601 | whatever is cut off from a traversal has left an issue |
| NativeValidators.NativeValidator.CheckAnchor | go/docxpatch/native_contract.go:1395-1419 | no issue if and only if the anchor is complete, in the owner's part and inside its parent |
| NativeValidators.NativeValidator.Id | go/docxpatch/native_contract.go:1452-1459 | no issue if and only if the id is valid and new |
| NativeValidators.NativeValidator.Run | go/docxpatch/native_contract.go:1077-1163 | one payload of the run's kind, anchors nested, reference and drawing checked |
| NativeValidators.NativeValidator.Drawing | go/docxpatch/native_contract.go:1171-1178 | id, anchor and media reference of a drawing |
| NativeValidators.NativeValidator.Paragraph | go/docxpatch/native_contract.go:943-985 | a paragraph and all its runs inside its anchor |
| NativeValidators.NativeValidator.Table | go/docxpatch/native_contract.go:987-1075 | a table with all rows, cells and nested paragraphs, each inside its parent's anchor |
| NativeValidators.NativeValidator.Block | go/docxpatch/native_contract.go:914-941 | payload of the block's kind with the block's id |
| NativeValidators.NativeValidator.Story | go/docxpatch/native_contract.go:837-912 | a story of an allowed kind, with what later lookups need |
| NativeValidators.NativeValidator.Section | go/docxpatch/native_contract.go:1282-1342 | a section's anchor inside the body, its starting block, columns and story references |
| NativeValidators.NativeValidator.Comment | go/docxpatch/native_contract.go:719-738 | the comment's story lies inside the comment's anchor and carries its native id |
| NativeValidators.NativeValidator.CheckReferences | go/docxpatch/native_contract.go:793-797 | no issue if and only if every collected reference resolves to its target kind |
| NativeValidation.CommentLookup | go/docxpatch/native_contract.go:732-737 | looking stories up by id is looking at all of them, once ids are unique |
| NativeValidation.VerdictIsContract | go/docxpatch/native_contract.go:649-800 | the verdict of the accumulated record is the declarative contract |
| NativeValidation.ValidateNativeDocument | go/docxpatch/native_contract.go:649-800 | no issues if and only if the document meets the contract; capping and truncation hide nothing |
| NativeEntities.DocWalk | go/docxpatch/native_contract.go:649-800 | the traversal meets every story, block, row, cell, run, drawing, section, column, comment and entry once: its ids, references and sizes are those of the document's tree of entities |
| NativePlaces.IdsAre | go/docxpatch/native_contract.go:1452-1459 | ids are accepted if and only if every entity's is valid and those of any two different places differ |
| NativePlaces.ReferencesAre | go/docxpatch/native_contract.go:793-797 | all collected references resolve if and only if every reference at every place names an object of its kind |
| NativePlaces.SizesAre | go/docxpatch/native_contract.go:1584-1601 | the traversal stays within its budget if and only if every collection is within its limit and all together within the budget, which only the last may use up |
| NativeMeaning.ContractMeans | go/docxpatch/native_contract.go:649-800 | the contract by places in the document: every anchor lies in every anchor around it and in their part, the ids of any two different entities differ, every reference of every entity names an object of its kind, every collection and all together are within the limits, comments and passthrough parts fit |
| NativeMeaning.SitsByParent | go/docxpatch/native_contract.go:1395-1419 | checking an anchor against its parent alone puts it inside all its ancestors |
| NativeMeaning.IdentifierIs | go/docxpatch/native_contract.go:419 | an identifier is a letter or digit and at most 255 letters, digits, dots, underscores, colons and hyphens |
| NativeMeaning.PayloadIs | go/docxpatch/native_contract.go:1077-1163 | a run has the payload of its kind and no other |
| NativeMeaning.RunNests | go/docxpatch/native_contract.go:943-1178 | in a document without issues every run of a paragraph, its link and its drawing lie inside the paragraph and the story, in one part |
| NativeMeaning.TableRunNests | go/docxpatch/native_contract.go:987-1178 | the same for every run of a table: inside its paragraph, cell, row, table and story |
| NativeMeaning.ModeledPartsAre | go/docxpatch/native_contract.go:837-848 | the parts a passthrough part must not be are the main part and the parts of all stories |
| DrawingScale.WithinHalf | go/docxpatch/native_approximate_drawing_shapes.go:554-563 | the scaled value is the nearest integer, halves away from zero |
| DrawingScale.Odd | go/docxpatch/native_approximate_drawing_shapes.go:554-563 | scaling commutes with negation |
| DrawingScale.IdentityAtEqualSpans | go/docxpatch/native_approximate_drawing_shapes.go:554-563 | equal spans move nothing |
| DrawingScale.MonotoneInValue | go/docxpatch/native_approximate_drawing_shapes.go:554-563 | scaling keeps order |
| DrawingScale.RightEdge | go/docxpatch/native_approximate_drawing_shapes.go:725-727 | scaled offset plus scaled width misses the scaled right edge by at most one unit |
| DrawingScale.ChildStaysInside | go/docxpatch/native_approximate_drawing_shapes.go:725-727 | a child inside the child space is placed inside the group, its right edge at most one unit outside |
| DrawingScale.NoOverflow | go/docxpatch/native_approximate_drawing_shapes.go:551-563 | every intermediate value fits 64 bits on the admitted range |
| DrawingScale.PlaceChild | go/docxpatch/native_approximate_drawing_shapes.go:716-737 | where a child goes, and exactly when it is degenerate or out of range |
| DrawingScale.VisibleSpan | go/docxpatch/native_approximate_drawing_shapes.go:1117-1123 | the visible share of one axis is exact to within one unit |
| DrawingScale.ComposedSides | go/docxpatch/native_approximate_drawing_shapes.go:1117-1123 | each side of a composed crop grows by its own overhang's share of what its axis showed, to the nearest unit |
| DrawingScale.ComposedVisible | go/docxpatch/native_approximate_drawing_shapes.go:1117-1123 | both axes of a composed crop show their share to within one unit |
| DrawingScale.ComposeCrop | go/docxpatch/native_approximate_drawing_shapes.go:1117-1126 | the crop is composed in place, axis by axis, and accepted if and only if at least one percent stays visible |
| DrawingScale.CropNoOverflow | go/docxpatch/native_approximate_drawing_shapes.go:1117-1123 | the composition's intermediate values fit 64 bits |
| Approximation.ModeIgnoresOrder | go/docxpatch/native_approximation.go:369-475 | the mode depends only on which attestations there are, not on their order or number |
| Disclosure.ModeMeans | go/docxpatch/native_approximation.go:366-475 | the mode is 12 where no setting attests one, and otherwise 12, 14 or 15 as every attestation says |
| Approximation.OptionDisclosed | go/docxpatch/native_approximation.go:366-475 | every compatibility option is disclosed, by a fact of its own kind and path or in the group of repeats |
| Disclosure.FactsAre | go/docxpatch/native_approximation.go:217-475 | the facts of an eligible attestation, all of them: one for each child of the root that is due, with its kind, path and value, one for each compatibility option named for the first time, and the groups of authoring-only children, repeated settings and repeated options, each member under its own path with its summary or value |
| Disclosure.DueDisclosed | go/docxpatch/native_approximation.go:217-280 | every known extra, hyphenation or character spacing setting that is diagnosed once has its fact |
| Disclosure.EligibleIs | go/docxpatch/native_approximation.go:69-112 | when an attestation is due, in the terms of the settings and diagnostics alone |
| Disclosure.AuthoringStands | go/docxpatch/native_approximation.go:262-279 | a group stands at the path of its first member |
| Approximation.OneMoreFact | go/docxpatch/native_approximation.go:197-211 | one more fact is recordable if and only if it is diagnosed, new in kind and path, and not one too many |
| Approximation.Builder.Refuse | go/docxpatch/native_approximation.go:181-195 | drops every fact and every disclosure of one, keeps all other reasons in order, and names the cause |
| Approximation.Builder.Add | go/docxpatch/native_approximation.go:197-211 | records the fact if and only if the facts stay recordable, else refuses |
| Approximation.Builder.TopLevel | go/docxpatch/native_approximation.go:217-280 | exactly the facts of the root's settings, with one group for the authoring-only ones; refused exactly when one cannot be read or recorded |
| Approximation.Builder.Duplicates | go/docxpatch/native_approximation.go:314-365 | all duplicates in one fact, if and only if each is admitted, new, and the group is bounded |
| Approximation.Builder.Compat | go/docxpatch/native_approximation.go:366-475 | exactly the facts of the compatibility children and the agreed mode, if and only if all are understood, agree and are recordable |
| Approximation.IndexDiagnostics | go/docxpatch/native_approximation.go:168-177 | the codes diagnosed at each path |
| Approximation.Build | go/docxpatch/native_approximation.go:109-112 | the three passes stop at the first refusal and are eligible exactly when the settings fit as a whole |
| Approximation.Attest | go/docxpatch/native_approximation.go:69-155 | eligible if and only if diagnostics and settings fit; an ineligible attestation carries no fact and no disclosure; an eligible one carries exactly the recorded facts, at most 64, distinct in kind and path, each joined to a diagnostic, and the mode all attestations agree on |

## Left out

Collaboration hub:

- HubTheorems.ViewsAgree: speaks of client ids and selections, not of names, because a repeated join may change a name without any event (go/collab/hub.go:93-99).
- HubTheorems.DeliveryIsExact: says nothing about a member whose room's log was forgotten while it was still there; the incarnation counter tells these members apart.
- Cancellation of a context inside the store is part of the `MemoryStore` and `Hub` classes; in the machine it is one step that ends a submission.
- Join times, users, colours, name sanitising, JSON and size validation of selections and batches.
- Sequence numbers are unbounded integers; the 64-bit counter would have to be exhausted one batch at a time.
- HubCatchUp.CatchUpJoinsUp: the moment of the read is any reachable state after which the member's log goes on; the machine itself has a catch-up and a list of peers only as calls that pin and release a room, because they change nothing.
- HubLink.JoinStepIs: the links speak of the tables and the messages; the store of a submission is linked to the log by `HubStore.LogIsRun`, and to the ring by `MemoryStores`. In the machine a reply enters the client's log at the unlock, so a batch pushed between the unlock and the return of a call is ordered after that call's reply.
- The `Hub` class runs one call at a time and leaves FileChanged, Since, Log, MarkSaved, ResetLog and Forget to the machine and to `MemoryStore`, where they are one store call or one fan-out each.

Paragraph patcher:

- Zip reading and writing, and `ApplyPatch`: the document part is a string.
- Strings are sequences of code points; invalid UTF-8 and the difference between byte and code-point offsets, lengths and limits are not modelled, here or elsewhere.
- DocxReading.ReadItems: an empty text tag with attributes is read as nothing only when no closing text tag follows it; with one it is read as the start tag of `Words`, as the code's pattern does.
- DocxReading.StyleReads: takes a style tag that ends in `"/>`, with its value as the last attribute.
- DocxApply.Apply: a slice past the end of the text, which stops a Go program, is the error `OutOfRange`.
- DocxApply.SettledStep: the converses about the outcome are `DocxApply.StaleDeletion`, `DocxPromise.StaleSetting` and `DocxPromise.FrontAgain`. A set after a deletion of the same paragraph has none, because it can write what stood there (`DocxPromise.StaleSetCoincides`). An insertion after a paragraph whose length has changed has only `DocxApply.StaleExtent`; what it makes of the text is given by `DocxApply.ApplyEdit`.
- DocxPromise.FrontAgain: takes a first paragraph whose tag is one tag and whose properties are absent, a bare empty tag or closed by their own tag, with no run inside its own properties. Without that the equivalence fails, as `DocxLoose.LooseTwice` shows; schema-valid run properties have no attributes.
- DocxPromise.StaleSetting: takes a tidy paragraph in the same sense.
- DocxEverywhere.AppliesEverywhere: takes edits for which some document has a place: known operations, and no set or delete at a negative index.
- DocxApply.SortBottomUp: works on a sequence value instead of swapping in a slice, which nothing else shares.
- DocxListEdit.ExtractAfterApply: asks that gaps end in whole tags and that edited paragraphs are regular: kept properties free of text tokens, table tags and non-text markers, quoted attribute values, no style outside the paragraph's own properties, and no tag ending in `//>`. Without these a reader can see markup of a paragraph's properties as its content, or of a gap as a paragraph (`DocxListEdit.CutTag`).

Anchored tree and identity:

- Go's tokenizer: the parser is given tokens with their offsets. A node is attached to its parent when it ends, as a value, so no node refers to its parent.
- Canonical part names, the NUL separators of keys (keys are tuples), and the truncated SHA-256 of ids and namespaces (an injective function, and a function).
- The flattening of the previous document into records; the records are given in the order of the traversal.
- Reextraction.ReextractionIsStable: takes the requests as given, each with a node and a fingerprint, and ids that are not empty. The scope ids inside the native keys of unsupported entries are part of the requests.
- PathIdentity.EditsKeepIds: takes objects whose kind, part and path are different; a place that two records share is ambiguous and identifies none of them (`PathIdentity.KeptByPath`).
- XmlPaths.DistinctExactly: takes names without slashes, as XML names are.
- XmlGuard.GuardedPaths: chains through names that are not in the guard's list, such as `hyperlink`, are not covered.
- Section markers, column geometry and every other extraction from the tree.

Run edits:

- The merge of run properties is a function on properties; paragraph alignment and layout edits, rewriting of the text element, and the checks of source anchors (one flag per run) are not modelled.
- TextSplices.ApplyTextSplices: takes the list as the library sort leaves it; the sort is not stable, so the order of splices that start at one place is open (`TextSplices.SameStart`).
- RunSource.FormatsSource: how a piece is written, from the start tag, properties and text element of its run, is a parameter.
- RunTarget.ResolveSpan: takes a selector that has passed its own validation; messages of refusals are left out.
- Hyperlink wrapper markup, namespace carrying and the relationship part's text.

Checkers:

- NativeValidation.ValidateNativeDocument: the checks of plain fields are one flag per entity (`fieldsOk`), and so are edit policies with their operation lists. Note numbering, numbering definitions, and the uniqueness of note parts, note relationships and native note ids are not part of the contract modelled, so the traversal budget counts fewer collections than the code does.
- NativeValidators.NativeValidator.Run: plain fields and edit policies are one flag.
- NativeValidators.NativeValidator.Drawing: all plain fields are one flag.
- NativeValidators.NativeValidator.Paragraph: properties and the edit policy are one flag.
- NativeValidators.NativeValidator.Table: grid, spans and properties are one flag.
- NativeValidators.NativeValidator.Story: the uniqueness of note parts, note relationships and native note ids is not modelled.
- NativeValidators.NativeValidator.Section: page fields are one flag.
- Sorting of issues and all messages.
- Approximation.Attest: the exact forms of settings (leaves, attribute summaries, canonical forms) are given as fields of the model, and disclosures are shortened to the kind and path of their fact. Fonts, legacy table origins and other evidence collected after eligibility are not modelled.
- DrawingScale.PlaceChild: takes offsets and extents that the caller has already bounded.
- Relationship and blip checks, colours, charts, equations and shape predicates: long extraction without a deep invariant.
