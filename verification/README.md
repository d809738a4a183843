# Editorial bookkeeping, modelled and proved

This project models the bookkeeping of a private editorial bot that collects posts from a configured list of
sources, groups them, and prepares them for review. It states and proves what that bookkeeping is for: that a source's
cursor never passes over a post nobody saw, when groups stay partitions, that jobs make progress and never deliver twice, that
confirmed edits form one chain per draft, and that what is planned for delivery holds everything once.

Every stateful component is a class whose methods follow the program's own updates. Each method is proved equal to a
step function on plain values (`AfterFinish`, `Grouped`, `Split`, ...), and the theorems are about whole runs of those
steps. Network, SQL, the model providers, Telegram, hashing and clocks are parameters: any reply, any order, any time.

Each `.dfy` file holds one module of the same name:

- **Completeness protocol**: `Evidence` folds provider pages into a traversal record; `TraversalProof` turns records
  into proofs and says what a proof means about the real timeline; `CompletenessEngine` holds attempts, cursors and
  observation links; `CursorProof` proves the whole-run theorems, up to `NoSilentMiss`: while the
  sources go on publishing, every post between a source's first advancing window and its cursor was observed, as long as
  what the shipped core's rule calls complete was read honestly, and late enough. Resumed, failed and partial reads are
  free. The cursor theorems themselves (`GapFree` and the lifecycle ones) hold for any replies of the core. `TraversalExamples`
  and `ProtocolExample` show reads, and a run over two windows, that meet every hypothesis of these theorems, and a read
  that misses a post. `TraversalMeaning` and `FinishProof` say what a valid read was served and what a finished attempt
  stores, in terms of the pages and of the core's replies.
- **Events and Segments**: `EventFusion` and `EventTimeline` are the two state machines. `FusionProof` and
  `SegmentProof` prove step by step when both pairs of maps stay exact inverses; `FusionRuns` and `SegmentRuns` prove it
  for runs of any calls, with the exact condition, and that every pass is total; `SegmentConnectivity` proves that
  Segments stay connected in runs without manual operations; `ShadowPipeline` runs the two machines together, as a shadow
  call does, and proves that Segments refine live Events; `SegmentExamples` holds the runs that break the maps.
  `FusionMatching`, `MomentProof` and `SegmentManual` say, on the fingerprints, who ends up with whom.
- **Dated requests**: `ReplySelection` is the reply closure, `DateJobs` the resumable job machine, `DateJobProof` its
  safety and progress, `DateJobCoverage` what its coverage, deliveries and endings mean.
- **Final edits**: `FinalEdit` is the session and record machine, `FinalEditProof` its invariant over every run,
  `FinalEditTimes` expiry and where records come from.
- **Digests**: `FicBatches` is the budgeted batch translation, `TextChunks` the text splitter.
- **Grouping and delivery**: `Organizer`, `MediaPlan`, `DeliveryPlan`, `PackageStore`.
- **Callback tokens**: `CallbackStore`. Shared vocabulary is in `Common`.

Derived ids (Event, Segment, relation, record, package and unit ids) are hashes in the program; here they are datatypes
of what is hashed, so equal ids mean equal contents. `CallbackStore` alone assumes nothing of its digest.

Some properties one would like turn out to be false. Each is replaced by its exact condition, with an example reached by
the program's own calls:

- A provider page that both lists and pins a post it could not parse is accepted as valid, yet the post is neither
  ordered nor expected (`app/completeness_provider_proof.py:118-207`): `PinnedButUnparsed` builds a terminal proof that
  missed its window's only post. `ObservedIffAccounted` says exactly when a terminal proof can miss one, and
  `ParsedPinsAccount` gives a sufficient condition that can be read off each page: every pinned post was parsed.
- Two updates that founded an Event and were removed from it can found it again, which overwrites what is left of it
  (`app/event_fusion.py:425-433`): `RefoundingOrphans`, with `FoundingKeepsPartitionIff` and `RunKeepsPartitionIff`.
- Seeding, splitting and merging Segments write to a derived id that another Segment may have by then, and moving an
  update onto the Segment it is alone in drops that Segment (`app/event_timeline.py:511-760`): `SegmentExamples` has a run
  for each of the four, `SegmentProof` the condition of each, `SegmentRuns` that of whole passes and runs.
- A dated request whose delivery keeps raising stays due for ever, and blocks the jobs behind it
  (`app/date_requests.py:270-283`): `OutageNeverEnds`, with `JobStepIsProgressIff`, `JobEnds`, and `TableEnds` for
  the whole table.
- A package that gives way to a newer one takes along its members that did not come in again
  (`app/forward_ready_package.py:351-366`): `LeftBehind`, with `StaysPackagedIff`.

## Model

| member | source | states |
|---|---|---|
| `Evidence.TimelineStructure` | app/completeness_provider_proof.py:43-76 | the ordered ids are the listed entries in their order, without the empty ones and without any id pinned anywhere on the page; the pinned set and the bottom terminator are exactly those found |
| `Evidence.KeptMembers` | app/completeness_provider_proof.py:66-75 | an id survives exactly when it was listed, is not empty and is not pinned |
| `Evidence.KeptAppend` | app/completeness_provider_proof.py:43-76 | filtering pins distributes over pages' entry lists, so reading instruction by instruction keeps the overall order |
| `Evidence.IndexById` | app/completeness_provider_proof.py:118-150 | the last parsed post of each id is the one used |
| `Evidence.ResolveOrdered` | app/completeness_provider_proof.py:140-165 | the dated pairs are the ordered ids that were parsed, are by the source and carry a date; the resolution flag says whether every one was; the window ids are those dated inside the window |
| `Evidence.PairsMember` | app/completeness_provider_proof.py:140-165 | a pair is listed exactly when its id is ordered and resolves to that date |
| `Evidence.AllResolved` | app/completeness_provider_proof.py:150-165 | as many pairs as ids means every ordered id resolved |
| `Evidence.SpanOf` | app/completeness_provider_proof.py:165-185 | newest and oldest are attained and bound every pair |
| `Evidence.TraversalEvidence.constructor` | app/completeness_evidence.py:10-30 | a record starts unread, in order, unproven, for its source and window |
| `Evidence.TraversalEvidence.RecordStructuralProof` | app/completeness_provider_proof.py:118-207 | the whole record after a page, field by field, and whether the page's structure counts as valid |
| `Evidence.TraversalEvidence.RecordSpan` | app/completeness_provider_proof.py:165-185 | newest and oldest dates widen to the page's, nothing else changes |
| `Evidence.TraversalEvidence.RecordOrder` | app/completeness_provider_proof.py:180-207 | the order flag, the last date of new posts, the seen ids and the sticky boundary after the page's pairs, nothing else |
| `Evidence.TraversalEvidence.RecordPage` | app/completeness_evidence.py:38-48 | validity starts with the first page and then only falls; pages and posts are counted |
| `Evidence.TraversalEvidence.RecordObservation` | app/completeness_evidence.py:51-56 | exactly one id is added to the observations |
| `TraversalProof.ConsumePage` | app/completeness_provider_proof.py:210-272 | a provider response folded into the record, with its validity and whether it exhausted the timeline; no response at all counts as an invalid, exhausted page |
| `TraversalProof.OrderInvariantStep` | app/completeness_provider_proof.py:165-207 | a page that leaves the order flag set extends the trail of newly seen posts, still non-increasing across pages |
| `TraversalProof.TrailIsOrdered` | app/completeness_provider_proof.py:140-207 | while the order flag holds, the newly seen top-level posts of all pages in a row are non-increasing in time, all seen, all expected when in the window; the boundary flag means the last of them is older than the window |
| `TraversalProof.BoundaryStop` | app/completeness_provider_proof.py:140-207 | with no assumption on the provider: once the boundary is proven, a further page that keeps the order adds no expected id except pinned ones |
| `TraversalProof.SpanIsExact` | app/completeness_provider_proof.py:165-185 | newest and oldest stay the exact range of dates of the posts seen, whatever the order |
| `TraversalProof.PageExpects` | app/completeness_provider_proof.py:118-207 | a valid page makes a window post expected exactly when it orders it, or pins it parsed, by the source and dated |
| `TraversalProof.ExpectedIffAccounted` | app/completeness_provider_proof.py:118-207 | over a valid traversal of a real timeline a window post is expected exactly when some page accounts for it |
| `TraversalProof.BoundaryWasRead` | app/completeness_provider_proof.py:180-207 | the boundary flag of a valid traversal is witnessed by a post of the timeline that was read and is older than the window |
| `TraversalProof.ReadSliceOf` | app/completeness_provider_proof.py:210-272 | slices read from the top without a gap cover everything above their frontier |
| `TraversalProof.ParsedPinsAccount` | app/completeness_provider_proof.py:43-76 | a post that was read is accounted for when every pinned post of every page was parsed: what can be checked page by page |
| `TraversalProof.TerminalProofIsSound` | app/completeness_engine.py:57-101 | end to end: on a non-increasing timeline read from the top in overlapping slices, a valid terminal proof puts every post of the window among the observations, given that the window's read posts are accounted for |
| `TraversalProof.WindowExpectedIffAccounted` | app/completeness_engine.py:57-101 | the accounting condition is exact: the expected ids cover the window if and only if every window post is accounted for |
| `TraversalProof.ReobservedReads` | app/completeness_evidence.py:51-56 | what reaches the observation path changes nothing else in the evidence |
| `TraversalProof.ObservedIffAccounted` | app/completeness_engine.py:57-101 | exactly when a terminal proof can miss a post: over a valid traversal that exhausted the timeline or proved its boundary, whatever is observed, a terminal proof means the whole window was observed if and only if every window post is accounted for |
| `TraversalMeaning.ValidPageIsWellServed` | app/completeness_provider_proof.py:118-272 | a valid page came without errors, with entries or the end of the timeline, and brought every listed unpinned post, by the source and dated |
| `TraversalMeaning.ValidReadWasWellServed` | app/completeness_provider_proof.py:118-272 | in a valid read every page was so served |
| `TraversalMeaning.PageExpectsOnlyDue` | app/completeness_provider_proof.py:118-165 | a page makes nothing expected but the source's own posts of the window that it lists or pins and brought |
| `TraversalMeaning.ExpectedIsDue` | app/completeness_provider_proof.py:118-165 | nothing a read expects is anything else |
| `TraversalExamples.HonestRead` | app/completeness_provider_proof.py:210-272 | two overlapping pages with cursor entries and a pin, read in order, closed by a terminal proof of the lower boundary |
| `TraversalExamples.SoundnessApplies` | app/completeness_engine.py:57-101 | every hypothesis of the soundness theorem holds of that read, for both of its window posts |
| `TraversalExamples.LaterRead` | app/completeness_provider_proof.py:210-272 | a later read of the next window, from the top of the longer timeline, closed by a terminal proof |
| `TraversalExamples.ResumedRead` | app/x_resumable_recovery_runtime.py:536-690 | a read resumed in the middle of the timeline, whose structure proves a boundary although it read nothing of its window; being resumed it is never complete |
| `TraversalExamples.PinnedButUnparsed` | app/completeness_provider_proof.py:118-165 | a concrete traversal, valid, with a terminal proof, whose only window post was never observed |
| `TraversalExamples.UnparsedPinAddsNothing` | app/completeness_provider_proof.py:43-76 | a page that pins and lists one unparsed post changes nothing but the page count and validity |
| `CompletenessEngine.RowOf` | app/completeness_engine.py:343-360 | the first row of that id, or none |
| `CompletenessEngine.Engine.constructor` | app/completeness_engine.py:147-191 | the tables start empty |
| `CompletenessEngine.Engine.Plan` | app/completeness_engine.py:265-299 | one unstarted row for every enabled source, ignored where its id or its run and source are taken; an empty or reversed window is refused and changes nothing |
| `CompletenessEngine.Engine.Start` | app/completeness_engine.py:301-341 | the planned row becomes started, numbered by the earlier starts of its source and window, remembering the cursor; otherwise nothing changes |
| `CompletenessEngine.CountStarted` | app/completeness_engine.py:301-341 | the number of started attempts of one source and window |
| `CompletenessEngine.Engine.Checkpoint` | app/completeness_engine.py:230-254 | only the progress of an unfinished row is replaced |
| `CompletenessEngine.Engine.LinkObservation` | app/completeness_engine.py:256-263 | one link is added for an unfinished attempt, none for a finished one |
| `CompletenessEngine.Engine.Finish` | app/completeness_engine.py:343-506 | the finished row, the cursor and the status for any replies of the core; an unknown, unstarted or finished attempt changes nothing |
| `CompletenessEngine.Engine.AdvanceCursor` | app/completeness_engine.py:388-470 | the cursor moves exactly when the verdict is complete, the window is contiguous and later, the attempt is newer and the core returns that very end |
| `CompletenessEngine.Engine.CloseRun` | app/completeness_engine.py:508-566 | every unfinished attempt of the run becomes a final unproven one; cursors and other runs stay |
| `CompletenessEngine.Engine.Report` | app/completeness_engine.py:568-612 | the configured, started and complete rows of the run are counted; a run is healthy exactly when it has rows and all are complete and final |
| `FinishProof.CompleteIff` | app/completeness_engine.py:57-101 | on the evidence itself: complete is a read without error, unresumed, valid, in order, that observed all it expected, and proved its boundary or exhausted the source without crossing it unproven |
| `FinishProof.IncompleteIs` | app/completeness_engine.py:57-101 | any other read is partial when it saw a post, and else unproven |
| `FinishProof.CursorMovesIff` | app/completeness_engine.py:388-470 | a finish moves the cursor exactly on a complete verdict, a window that continues the cursor and is newer, and the core's agreement to its very end |
| `FinishProof.CompleteIsStoredIff` | app/completeness_engine.py:388-470 | a finish stores complete exactly when the core called it so and either moved the cursor or did not have to |
| `FinishProof.CoreFailureIsTold` | app/completeness_engine.py:343-470 | a core that fails in the verdict or in the advance leaves an unproven attempt that says so, and the old cursors |
| `FinishProof.VerdictIsStored` | app/completeness_engine.py:343-506 | any other verdict is stored as it is, with the error of the read |
| `FinishProof.FinishTellsCursor` | app/completeness_engine.py:449-475 | the stored row tells where the cursor stood before and stands now, what was observed, and whether a complete window lay beyond the cursor |
| `FinishProof.KindTells` | app/completeness_engine.py:104-144 | the stored kind tells the proof of a complete read, the failure of the core or of the provider, or what the read lacked |
| `FinishProof.FinishIsLocal` | app/completeness_engine.py:343-506 | no other row, link or source's cursor changes |
| `FinishProof.RunKeepsPace` | app/completeness_engine.py:265-566 | in every run, for any replies: the cursor of a complete attempt's source has reached its window's end, or a newer attempt moved it, or the stored gap flag says the window lay beyond it |
| `FinishProof.StartRemembers` | app/completeness_engine.py:300-341 | a start remembers where its source's cursor stood |
| `FinishProof.LinksAre` | app/completeness_engine.py:265-566 | the links of a run are exactly those made while their attempt was open |
| `FinishProof.InterruptedKeepsProgress` | app/completeness_engine.py:508-566 | an interrupted attempt is unproven and keeps the progress it last noted |
| `FinishProof.ClosedTellsCursor` | app/completeness_engine.py:508-566 | a closed attempt tells where the cursor stood when it was started, or stands now if it never was |
| `FinishProof.PlanCovers` | app/completeness_engine.py:265-298 | a new run has an open attempt for the window for every enabled source, and for no other |
| `CursorProof.StepKeepsInvariant` | app/completeness_engine.py:265-566 | every call keeps: one row per id and per run and source, sound rows, advancing rows chained without gaps, each cursor at its source's last advancing window |
| `CursorProof.RunInvariant` | app/completeness_engine.py:265-566 | the invariant holds in every run of interleaved calls, for any replies of the core |
| `CursorProof.AdvanceKeeps` | app/completeness_engine.py:388-470 | the one step that moves a cursor extends its chain at the end |
| `CursorProof.FinishKeeps` | app/completeness_engine.py:343-506 | finishing keeps the invariant for any verdict and any advance reply |
| `CursorProof.ChainCovers` | app/completeness_engine.py:388-470 | along the chain every instant lies in an advancing window |
| `CursorProof.GapFree` | app/completeness_engine.py:388-506 | in every run and for any core: each instant from a source's first advancing window to its cursor lies in the window of a finalized complete attempt |
| `CursorProof.FirstAdvanceExists` | app/completeness_engine.py:388-470 | an advancing attempt has a first one of its source |
| `CursorProof.StepExtends` | app/completeness_engine.py:230-566 | finalized rows and their links never change, started rows keep number and starting cursor, cursors only move up, with both end and sequence |
| `CursorProof.RunExtends` | app/completeness_engine.py:230-566 | the same between any point of a run and any later one |
| `CursorProof.CloseFinalizes` | app/completeness_engine.py:508-566 | closing finalizes every attempt of the run, the unfinished ones as unproven, and touches no cursor, link or other row |
| `CursorProof.AdvancedIffMoved` | app/completeness_engine.py:430-506 | the stored flag appears in a call exactly for the attempt that moved the cursor in that call |
| `CursorProof.OnlyFinishAdvances` | app/completeness_engine.py:230-566 | no call but finish moves a cursor or sets the flag |
| `CursorProof.AttemptNumbersCountStarts` | app/completeness_engine.py:301-341 | in every run the k-th started attempt of one source and window has number k |
| `CursorProof.CompleteIsEvidenced` | rust/editorial-core/src/lib.rs:18-32 | with the shipped core, a stored complete attempt carries a terminal, valid, unresumed proof whose expected posts were all observed |
| `CursorProof.CompleteObservedItsWindow` | app/completeness_engine.py:343-506 | while sources go on publishing: every complete attempt observed every post ever published in its window, if what the core calls complete was read honestly and not before its window was published; resumed, failed and partial attempts are free |
| `CursorProof.NoSilentMiss` | app/completeness_engine.py:57-506 | then every post published between a source's first advancing window and its cursor is among the observations of a finalized complete attempt |
| `CursorProof.LateEnough` | app/completeness_runtime.py:38-90 | a source that has since published only posts at or after the end of the window was read late enough |
| `ProtocolExample.NothingMissedHere` | app/completeness_engine.py:265-506 | a run of two chained windows, with a post published in between and a resumed attempt among them, meets every hypothesis of `NoSilentMiss` |
| `EventFusion.MatchIsSymmetric` | app/event_fusion.py:249-304 | matching does not depend on which update came first |
| `EventFusion.ConfidentIff` | app/event_fusion.py:249-304 | a match is confident if and only if the two are strongly linked and nothing conflicts: no sum of weak signals reaches it |
| `EventFusion.TypeConflictNeedsStrongLink` | app/event_fusion.py:249-304 | updates of conflicting concrete types join only on a reply, a quote, a shared reference or a conversation |
| `FusionMatching.ConfidentMeans` | app/event_fusion.py:249-304 | on the fingerprints: confident exactly when the two answer, quote, refer or converse with one another, are at most three days apart and of no two concrete types |
| `FusionMatching.LinksJoin` | app/event_fusion.py:249-304 | such a link joins within a week, unless both the gap and the types speak against it |
| `FusionMatching.LateRepliesJoin` | app/event_fusion.py:249-304 | a reply joins however late, unless between two concrete types |
| `FusionMatching.UnlinkedJoinNeeds` | app/event_fusion.py:249-304 | without a link, joining takes a shared anchor and overlapping topics, and no two concrete types; and is never confident |
| `FusionMatching.UnlinkedJoinSuffices` | app/event_fusion.py:249-304 | with shared participants, three topics and 28 in a hundred in common, within three days, it suffices |
| `FusionMatching.GroupedIff` | app/event_fusion.py:470-503 | an unassigned update gets into an Event if and only if some fingerprint joins it and those that do are not in two Events; and then into that of one that joins it |
| `FusionMatching.BatchGathers` | app/event_fusion.py:459-503 | who finds an Event in a shadow call is in one with an update that joins it when the call ends |
| `FusionMatching.LastStoredIsCurrent` | app/event_fusion.py:465-474 | of several fingerprints of one id the last one given counts |
| `FusionMatching.OldestFirst` | app/event_fusion.py:459-463 | updates are taken from the oldest on, equally old ones by id |
| `FusionMatching.JoiningTells` | app/event_fusion.py:436-445 | a generic Event takes the type of a concrete update that joins; its confidence is that of its weakest match |
| `FusionMatching.MergedTypeIs` | app/event_fusion.py:425-433 | a founded Event has the one concrete type of its two updates, if they agree |
| `EventFusion.BestOf` | app/event_fusion.py:470-500 | the best candidate and the set of Events that plausibly match |
| `EventFusion.Store.ShadowGroup` | app/event_fusion.py:459-503 | exactly the updates of configured sources are taken, in order of creation and id, and the maps after grouping them |
| `EventFusion.Store.AssignEach` | app/event_fusion.py:465-469 | every fingerprint of the call is stored, a later one of an id over an earlier one |
| `EventFusion.Store.GroupEach` | app/event_fusion.py:476-503 | the updates of the call are grouped one after the other against the whole table |
| `EventFusion.Store.GroupOne` | app/event_fusion.py:470-503 | one update joins its best match's Event, founds one with it, or stays alone |
| `EventFusion.Store.Join` | app/event_fusion.py:496-498 | the matched update's live Event is joined, or one is founded on the two |
| `EventFusion.Store.Create` | app/event_fusion.py:425-433 | the maps after founding an Event on two updates |
| `EventFusion.Store.Attach` | app/event_fusion.py:436-445 | the maps after an update joins an Event |
| `EventFusion.Store.Remove` | app/event_fusion.py:506-518 | the update leaves its Event, and an emptied Event goes |
| `EventFusion.Store.Reclassify` | app/event_fusion.py:521-532 | the update moves to an existing Event; it fails exactly when the target does not exist or vanishes with the removal |
| `FusionProof.NoUpdateInTwoEvents` | app/event_fusion.py:418-445 | under the partition no update is in two Events |
| `FusionProof.FoundingKeepsPartitionIff` | app/event_fusion.py:425-433 | founding keeps the maps inverse if and only if the derived id is not in use |
| `FusionProof.SeedsMakeFresh` | app/event_fusion.py:161-165 | while live Events hold their seeds, the id derived for an unassigned update is never in use |
| `FusionProof.AttachingKeeps` | app/event_fusion.py:436-445 | joining keeps the partition and the seeds, and Events only grow |
| `FusionProof.BestIsUnbeaten` | app/event_fusion.py:475-492 | no other candidate beats the chosen one, and one is chosen whenever there is any |
| `FusionProof.GroupingOneKeeps` | app/event_fusion.py:470-503 | grouping one update keeps partition and seeds, and only adds members |
| `FusionProof.GroupingAllKeeps` | app/event_fusion.py:459-503 | grouping a batch does |
| `FusionProof.PruningKeeps` | app/event_fusion.py:535-543 | eviction drops whole Events with exactly their memberships |
| `FusionProof.RemovingKeeps` | app/event_fusion.py:506-518 | removal keeps the partition and every other membership |
| `FusionProof.ReclassifyingKeeps` | app/event_fusion.py:521-532 | the partition is kept for every target; the update lands there if and only if the target exists and is not its own singleton |
| `FusionRuns.GroupingOneKeepsIff` | app/event_fusion.py:470-503 | grouping an update keeps the maps inverse exactly when it founds no Event whose id is in use; else some update is orphaned |
| `FusionRuns.GroupingAllKeepsIff` | app/event_fusion.py:459-503 | the same for a batch: an orphan stays one |
| `FusionRuns.StepKeepsPartitionIff` | app/event_fusion.py:425-543 | every call, manual ones and eviction included, keeps the maps inverse exactly when it is safe; only grouping can be unsafe |
| `FusionRuns.RunKeepsPartitionIff` | app/event_fusion.py:425-543 | over any interleaving the maps are inverse at every point of the run if and only if every call of it was safe |
| `FusionRuns.ShadowStepKeeps` | app/event_fusion.py:459-543 | without manual correction an Event is lost only by eviction and otherwise only gains members |
| `FusionRuns.ShadowRunPartition` | app/event_fusion.py:425-543 | in every run of grouping and eviction the maps are inverse, every live Event holds both its seeds, and every call is safe |
| `FusionRuns.RefoundingOrphans` | app/event_fusion.py:425-518 | a run of grouping calls and removals, on updates that answer one another, whose last call founds an Event again over its remaining member |
| `EventTimeline.Store.Reconcile` | app/event_timeline.py:482-508 | stale memberships, emptied Segments and dead relations go, all else stays |
| `EventTimeline.Store.DropStale` | app/event_timeline.py:482-500 | exactly the stale memberships are dropped, each also from its Segment's members |
| `EventTimeline.Store.DropEmpty` | app/event_timeline.py:498-504 | exactly the Segments without members are dropped |
| `EventTimeline.Store.Create` | app/event_timeline.py:511-522 | a Segment of one update under the id derived from it |
| `EventTimeline.Store.Attach` | app/event_timeline.py:525-534 | the update becomes a member of the Segment and its membership says so |
| `EventTimeline.Store.StoreRelationship` | app/event_timeline.py:537-550 | one relation between the two updates, with the Segments they are in, if any |
| `EventTimeline.Store.Reclassify` | app/event_timeline.py:688-711 | the maps after a manual move; it fails exactly when the target is no Segment or not of the update's Event |
| `EventTimeline.Store.SplitSegment` | app/event_timeline.py:714-736 | the moved members become a Segment of their own, exactly them; refused exactly when they are not a non-empty proper subset or the id would be the same |
| `EventTimeline.Store.MergeSegments` | app/event_timeline.py:739-760 | the two Segments of one Event become one with all their members; refused exactly when one is missing or the Events differ |
| `EventTimeline.Store.SegmentEvent` | app/event_timeline.py:651-675 | a pass over an Event's fingerprints: every choice unbeaten among all offered ones, and the maps after placing each in turn |
| `EventTimeline.Store.PlaceOne` | app/event_timeline.py:651-675 | an unplaced update joins the best Segment when the match attaches, and seeds one otherwise |
| `EventTimeline.Store.BestOverall` | app/event_timeline.py:654-668 | an unbeaten choice among every Segment of the Event, or none when nothing is offered |
| `EventTimeline.Store.BestIn` | app/event_timeline.py:600-611 | an unbeaten match among a Segment's fingerprinted members |
| `EventTimeline.Store.Reorder` | app/event_timeline.py:589-597 | exactly the Segments of the Event are listed, sorted by order evidence, and numbered from 1 in that order; nothing else changes |
| `EventTimeline.Store.SortSegments` | app/event_timeline.py:590-594 | exactly the Segments of the Event, none twice, sorted by order evidence |
| `EventTimeline.Store.NumberEach` | app/event_timeline.py:595-596 | the listed Segments are numbered from 1, nothing else changes |
| `EventTimeline.Insert` | app/event_timeline.py:589-597 | insertion keeps the order and the members |
| `SegmentProof.AttachingAgreesOnTime` | app/event_timeline.py:299-417 | an attaching match stays in one Event and never bridges content timestamps more than two minutes apart |
| `SegmentProof.AnchoredMomentsAttach` | app/event_timeline.py:299-417 | a shared quote, medium, timestamp, clip or question makes one moment when no conflict speaks against it |
| `MomentProof.LinkedMomentsAttach` | app/event_timeline.py:299-415 | on the fingerprints: of two compatible updates of one Event a shared anchor makes one moment and a reply a continuation, and both attach |
| `MomentProof.SequelsAttach` | app/event_timeline.py:299-415 | so do the same or the next part of one conversation within two hours |
| `MomentProof.AttachingNeedsLink` | app/event_timeline.py:299-415 | nothing attaches without an anchor, a reply, a shared conversation or adjoining parts, nor across content times; and answers to different questions only by a reply or a disagreement on one anchor |
| `MomentProof.SequenceAloneDoesNotAttach` | app/event_timeline.py:299-415 | a shared conversation alone, or adjoining parts alone, do not attach |
| `MomentProof.DisagreementsStayTogether` | app/event_timeline.py:299-415 | accounts of one anchor whose facts disagree stay together, marked as conflicting |
| `MomentProof.PlacedTogetherIff` | app/event_timeline.py:651-675 | placing an update puts it together with somebody if and only if some fingerprinted member of a Segment of the Event attaches to it |
| `MomentProof.StrongestIsChosen` | app/event_timeline.py:600-672 | an attaching match is chosen before any other, a disagreement before the same moment before a continuation, and of equal ones the most confident |
| `MomentProof.MatchIsRemembered` | app/event_timeline.py:537-572 | a match is stored as a relation of that kind between the two, with the Segments they are in then |
| `MomentProof.JoiningTells` | app/event_timeline.py:525-534 | a Segment is as certain as its weakest match |
| `MomentProof.PassGathers` | app/event_timeline.py:614-685 | whoever finds somebody to attach to in a pass is not alone after it |
| `MomentProof.RepliesFindCompany` | app/event_timeline.py:614-685 | an unplaced update that answers a placed and fingerprinted one of its Event, with nothing against it, shares a Segment with somebody after the pass |
| `MomentProof.EarlierTimeGoesFirst` | app/event_timeline.py:574-597 | a Segment with an earlier content time than any of another's, or with one at all, is numbered before it |
| `MomentProof.LowerPartGoesFirst` | app/event_timeline.py:574-597 | without content times the lower part number goes first |
| `MomentProof.EarlierDateGoesFirst` | app/event_timeline.py:574-597 | without either the earlier source date |
| `SegmentManual.SplitMeans` | app/event_timeline.py:714-737 | after a split exactly the pairs of which one was moved and the other was not are apart |
| `SegmentManual.MergeMeans` | app/event_timeline.py:739-760 | after a merge exactly the pairs that were together, or both in the merged Segments, are |
| `SegmentManual.MoveMeans` | app/event_timeline.py:688-711 | a manual move puts the update into the target and nobody else anywhere |
| `SegmentProof.ReconcilingKeeps` | app/event_timeline.py:482-508 | reconciliation keeps the partition, leaves exactly the memberships that agree with Event Fusion, and changes none of them |
| `SegmentProof.ReconcilingIsIdle` | app/event_timeline.py:482-508 | it changes neither Segments nor memberships when every membership is up to date |
| `SegmentProof.SeedingKeepsPartitionIff` | app/event_timeline.py:511-522 | seeding keeps the maps inverse if and only if the derived id is not in use |
| `SegmentProof.AttachingKeeps` | app/event_timeline.py:525-534 | attaching keeps the maps inverse |
| `SegmentProof.ReclassifyingKeepsPartitionIff` | app/event_timeline.py:688-711 | a manual move keeps the maps inverse if and only if it is not onto the update's own singleton |
| `SegmentProof.SplittingKeepsPartitionIff` | app/event_timeline.py:714-736 | a split does if and only if the id derived from the moved updates is not in use |
| `SegmentProof.MergingKeepsPartitionIff` | app/event_timeline.py:739-760 | a merge does if and only if the id derived from the union is unused or one of the two |
| `SegmentProof.PruningKeeps` | app/event_timeline.py:763-775 | eviction keeps the maps inverse and drops exactly the memberships of evicted Segments |
| `SegmentProof.SplitThenMergeRestores` | app/event_timeline.py:714-760 | splitting and merging the two parts again restores which updates are together |
| `SegmentRuns.PlacingKeepsPartitionIff` | app/event_timeline.py:651-675 | placing an update keeps the maps inverse exactly when it seeds no Segment whose id is in use; else some update is orphaned |
| `SegmentRuns.PassPlaces` | app/event_timeline.py:614-685 | from any reconciled state a pass leaves every update it takes with a membership of the Event, and moves nobody placed before |
| `SegmentRuns.PassKeepsPartitionIff` | app/event_timeline.py:614-685 | a pass keeps the maps inverse if and only if it seeds no Segment whose id is in use |
| `SegmentRuns.ExactlyOneSegment` | app/event_timeline.py:511-534 | a placed update is a member of its own Segment and of no other |
| `SegmentRuns.PassLeavesEachInOneSegment` | app/event_timeline.py:614-685 | totality: from any reconciled state, unless an id in use is seeded, each update the pass takes is afterwards in exactly one Segment, of that Event |
| `SegmentRuns.SeedIsFresh` | app/event_timeline.py:177-184 | while Segments hold their seeds, the id derived for an unplaced update is never in use |
| `SegmentRuns.PassKeepsRoots` | app/event_timeline.py:614-685 | while Segments hold the updates their ids are derived from, no pass seeds an id in use, and they go on holding them |
| `SegmentRuns.MergingKeepsRoots` | app/event_timeline.py:739-760 | in such a state no merge writes to another Segment's id |
| `SegmentRuns.StepKeepsPartitionIff` | app/event_timeline.py:482-775 | every call, passes, manual operations and evictions alike, keeps the maps inverse exactly when it is safe |
| `SegmentRuns.RunKeepsPartitionIff` | app/event_timeline.py:482-775 | over any interleaving the maps are inverse at every point of the run if and only if every call of it was safe |
| `SegmentRuns.NumberingIsApart` | app/event_timeline.py:589-597 | numbering Segments leaves who is in them, and in which Event, as it was |
| `SegmentRuns.SyncingKeepsSound` | app/event_timeline.py:482-508 | reconciling after whole Events went keeps the maps inverse and Segments holding their seeds |
| `SegmentRuns.GrowingRunIsSound` | app/event_timeline.py:482-775 | in every run without removals, splits and manual moves, evictions of Segments and of whole Events included, every call is safe, the maps are inverse and Segments hold their seeds |
| `SegmentRuns.LastPassIsTotal` | app/event_timeline.py:614-775 | after a pass of such a run each update it took is in exactly one Segment, of that Event |
| `SegmentExamples.SeedingBreaks` | app/event_timeline.py:511-522 | a run, for any three updates, in which a Segment outlives the update that seeded it, which comes back, matches nothing and overwrites it |
| `SegmentExamples.MovingOntoSingletonBreaks` | app/event_timeline.py:688-711 | a run whose last call moves an update onto the Segment it is alone in, which is dropped |
| `SegmentExamples.SplittingBreaks` | app/event_timeline.py:714-736 | a run whose last split writes to the id of a Segment that outlived its seed |
| `SegmentExamples.MergingBreaks` | app/event_timeline.py:739-760 | a run whose last merge writes to the id of a Segment that outlived the pair it was merged from |
| `SegmentExamples.AllFourBreak` | app/event_timeline.py:511-760 | the four runs exist |
| `SegmentConnectivity.PlacingKeeps` | app/event_timeline.py:651-675 | placing one update keeps partition, seeds and connectivity, moves nobody, and puts it in a Segment of the Event |
| `SegmentConnectivity.PassKeepsShadow` | app/event_timeline.py:614-685 | a pass keeps every Segment connected and only adds to them |
| `SegmentConnectivity.SyncingKeepsShadow` | app/event_timeline.py:482-508 | reconciling after whole Events went keeps every remaining Segment connected, and drops exactly what has lost an end |
| `SegmentConnectivity.EvictingKeepsResting` | app/event_timeline.py:763-775 | evicting Segments and relations keeps the Segments connected when no relation inside a kept Segment goes |
| `SegmentConnectivity.EvictingLinksCutsOff` | app/event_timeline.py:772-774 | evicting every relation of an update cuts it off from its Segment: the condition cannot be dropped |
| `SegmentConnectivity.ShadowRunConnected` | app/event_timeline.py:482-775 | in every run without manual operations and removals, in which no relation inside a live Segment is evicted, the maps are inverse and any two members of a Segment are joined by a path of stored attaching relations inside it |
| `ShadowPipeline.GroupingKeepsWholeEvents` | app/event_fusion.py:459-543 | after grouping and eviction an Event has all its members still, or none of them has a membership |
| `ShadowPipeline.GroupKeepsSound` | app/event_timeline_runtime.py:15-29 | grouping, eviction of Events and reconciliation keep both pairs of maps inverse and in step |
| `ShadowPipeline.RunIsSound` | app/event_timeline_runtime.py:10-33 | in every joint run of Event Fusion and timeline, evictions of Events, Segments and relations included, both pairs of maps are inverse, Events and Segments hold their seeds, and the timeline is up to date |
| `ShadowPipeline.SegmentsRefineEvents` | app/event_timeline.py:614-685 | in every joint run each Segment lies within one live Event |
| `ShadowPipeline.OneSegmentOneEvent` | app/event_timeline.py:511-534 | a placed update is in the Event its Segment is of, and in exactly one Segment |
| `ShadowPipeline.PassIsTotal` | app/event_timeline.py:614-685 | in every joint run a pass leaves each update it takes in exactly one Segment, of the Event it is in |
| `ShadowPipeline.FirstSegment` | app/event_timeline_runtime.py:15-29 | such runs exist: two updates that answer one another found an Event, and a pass over it seeds a Segment |
| `ShadowPipeline.ShadowRunConnected` | app/event_timeline_runtime.py:10-33 | in every joint run without manual operations, in which no relation inside a live Segment is evicted, Segments stay connected |
| `ReplySelection.Closure` | app/date_requests.py:241-259 | the worklist ends, on cyclic reply edges too, with exactly the keys reachable from seed threads by same-author reply edges |
| `ReplySelection.VisitReplies` | app/date_requests.py:252-258 | one visit keeps the worklist invariant and makes progress |
| `ReplySelection.SeedKeys` | app/date_requests.py:235-247 | the worklist starts with the seed threads, all of them reachable |
| `ReplySelection.ClosedHoldsReachable` | app/date_requests.py:241-259 | a set that holds the seed threads and is closed under reply edges holds everything reachable |
| `ReplySelection.Select` | app/date_requests.py:229-263 | the selection holds one update for each wanted id, the last one given, sorted by time and id; for live topics wanted means reachable |
| `ReplySelection.SelectedIdsAreWanted` | app/date_requests.py:259-263 | an id is selected exactly when some update of it is wanted |
| `ReplySelection.ChainKeepsAuthor` | app/date_requests.py:252-258 | replies are never followed across authors |
| `ReplySelection.WantedGoesBack` | app/date_requests.py:229-263 | what is wanted of a live topic goes back, by replies of one author, to a thread in which that author names it |
| `DateJobs.Requests.Enqueue` | app/date_requests.py:125-176 | a new job, or a new generation of a finished one that keeps deliveries and attempts, or nothing for one still active |
| `DateJobs.Requests.ProcessStep` | app/date_requests.py:286-294 | one step of the first due job, source-scoped jobs having priority, and whether it raised |
| `DateJobs.StepJob` | app/date_requests.py:296-438 | one bounded step: sweep a source, or select and deliver one update, or close; and what is left when loading, selecting, announcing or delivering raises |
| `DateJobs.Sweep` | app/date_requests.py:310-343 | the coverage and the observed ids after the first pending source, for every outcome of the collector |
| `DateJobs.Deliver` | app/date_requests.py:379-411 | the job after the first undelivered update was delivered, refused, gone or of a source no longer allowed |
| `DateJobs.Due` | app/date_requests.py:286-294 | the first job that is active, not deferred, and source-scoped when those have priority; the length when there is none |
| `DateJobProof.JobStepSafe` | app/date_requests.py:286-438 | a step keeps deliveries free of repeats and every swept handle accounted for; finished means the generation fully covered, the day over and everything selected delivered |
| `DateJobProof.JobStepDelivers` | app/date_requests.py:379-411 | a step only appends to the deliveries |
| `DateJobProof.RunSound` | app/date_requests.py:125-438 | in every run under a clock that never goes back, every job is safe and every finished job means it |
| `DateJobProof.RunKeepsDeliveries` | app/date_requests.py:125-438 | between any point of a run and a later one jobs keep their place and their deliveries, across generations |
| `DateJobProof.OwnersGoFirst` | app/date_requests.py:43-49 | while a source-scoped job is active no other job is touched |
| `DateJobProof.JobStepIsProgressIff` | app/date_requests.py:286-438 | a step of a due job leaves fewer pending sources, or selects, or leaves fewer delivery attempts, or ends the job, if and only if it did not raise before settling anything |
| `DateJobProof.StuckChangesNothing` | app/date_requests.py:270-283 | a step that raised so counts no attempt, sets no delay and leaves the work as it was |
| `DateJobProof.JobEnds` | app/date_requests.py:286-438 | whatever the world returns and whatever else raises, a job that keeps being due ends as long as steps without a fault keep coming |
| `DateJobProof.SomeJobIsDue` | app/date_requests.py:286-294 | whichever jobs have priority, a table with an active job and no deferred one has a job due |
| `DateJobProof.TableEnds` | app/date_requests.py:270-438 | once no new request comes, and while steps without a fault keep coming as time goes on, every job of the table ends, whatever the world returns and however often deliveries are put off |
| `DateJobProof.RunIsSteady` | app/date_requests.py:125-438 | every table the program reaches meets what the measure needs |
| `DateJobProof.EveryJobEnds` | app/date_requests.py:125-438 | so every job ends after any run of steps and requests |
| `DateJobProof.OutageNeverEnds` | app/date_requests.py:270-283 | a reachable job stays due for ever while delivering keeps raising, and the job behind it is never worked on |
| `DateJobCoverage.CoverageMeans` | app/date_requests.py:310-346 | coverage is only ever what the collection of the first pending source told, or that the author of a selected update is not allowed |
| `DateJobCoverage.SweepSettles` | app/date_requests.py:310-346 | a step with a pending source settles the first one as its collection told, and touches no other |
| `DateJobCoverage.StepObserves` | app/date_requests.py:295-346 | a step observes what was stored locally, once, and what its collection found, and loses nothing |
| `DateJobCoverage.DeliversIff` | app/date_requests.py:379-403 | an update is delivered exactly when it is the first selected open one, still usable, and accepted; and it alone |
| `DateJobCoverage.RefusalMeans` | app/date_requests.py:403-411 | a refusal counts one attempt and puts the job off for 2, 4, then 8 minutes; the third gives up |
| `DateJobCoverage.LostMeans` | app/date_requests.py:379-392 | an update that is gone ends the job as incomplete; one of a source not allowed is dropped and its author disabled |
| `DateJobCoverage.FinishesIff` | app/date_requests.py:412-438 | a job finishes exactly when all was swept and covered, the day is over and everything selected delivered |
| `DateJobCoverage.ClosesIncomplete` | app/date_requests.py:412-438 | otherwise it closes as incomplete, provisional when the day is not over |
| `DateJobCoverage.FirstGoes` | app/date_requests.py:286-294 | exactly the first job that is running, not delayed, and source-scoped when a running one is, gets a step |
| `DateJobCoverage.RequestIsActive` | app/date_requests.py:125-176 | a request leaves an active job that starts over with its sources unless it was active; deliveries stay |
| `DateJobCoverage.CoveredMeans` | app/date_requests.py:270-346 | in every run a source is covered only if it was collected without an error in the job's own generation |
| `DateJobCoverage.FinishedWasCollected` | app/date_requests.py:270-438 | so a finished job collected every source of its generation without an error |
| `FinalEdit.Store.constructor` | app/final_edit_capture.py:111-117 | empty tables and a life of one minute to one day |
| `FinalEdit.Store.StartSession` | app/final_edit_capture.py:188-227 | open sessions of the draft are cancelled, stale ones expire, and a pending one is opened unless its id is taken |
| `FinalEdit.Store.SetPromptMessage` | app/final_edit_capture.py:229-237 | exactly a pending session gets its prompt, and the flag says so |
| `FinalEdit.Store.ReceiveUserText` | app/final_edit_capture.py:257-290 | the body and its fingerprint are stored exactly when the session is pending, of that chat and draft version, and the text is within bounds; the flag says so |
| `FinalEdit.Store.ReplaceCandidate` | app/final_edit_capture.py:299-315 | exactly an awaiting session returns to pending without body, and the flag says so |
| `FinalEdit.Store.CancelSession` | app/final_edit_capture.py:317-328 | exactly an open session is cancelled and its body wiped, and the flag says so |
| `FinalEdit.Store.ConfirmSession` | app/final_edit_capture.py:356-421 | the session is confirmed, the previous record deactivated and a record added that supersedes it, exactly when the guards hold and the record is new; the flag says so |
| `FinalEdit.Store.RevokeFinalEdit` | app/final_edit_capture.py:439-445 | a revoked record is no longer active; the flag says whether there is one |
| `FinalEditProof.StepKeeps` | app/final_edit_capture.py:188-445 | every call keeps: one open session and one active record a draft, a body stored exactly while awaiting and matching its fingerprint, records matching confirmed sessions one to one, sound chains |
| `FinalEditProof.RunKeeps` | app/final_edit_capture.py:188-445 | the invariant holds in every run |
| `FinalEditProof.AppendingKeeps` | app/final_edit_capture.py:385-421 | deactivating the last active record and adding its successor keeps one active record a draft and the chains |
| `FinalEditProof.RecheckNeverFails` | app/final_edit_capture.py:366-384 | the fingerprint recheck before confirming cannot fail in any run |
| `FinalEditProof.ChainsGoBack` | app/final_edit_capture.py:395-421 | following supersedes never leaves the draft and always goes back in the table, so chains are acyclic |
| `FinalEditProof.ConfirmedIsActive` | app/final_edit_capture.py:356-456 | after a confirmation the new record is the draft's latest active one, carries the candidate body, and supersedes the one that was |
| `FinalEditTimes.ExpiryIs` | app/final_edit_capture.py:343-354 | exactly the open sessions whose life is over expire, and lose their body |
| `FinalEditTimes.ReceiveMeans` | app/final_edit_capture.py:257-290 | a body is stored exactly in a pending, unexpired session of that chat and version, within bounds |
| `FinalEditTimes.ReplaceMeans` | app/final_edit_capture.py:299-315 | exactly an unexpired awaiting session begins anew |
| `FinalEditTimes.ConfirmMeans` | app/final_edit_capture.py:356-421 | a record is added exactly when its session holds a body still, from that chat and for that version, and the record is new; it is made of what the session held |
| `FinalEditTimes.OthersOnlyAge` | app/final_edit_capture.py:188-445 | a call leaves every session it is not about as it was, save that its life may be over |
| `FinalEditTimes.SessionsComeFromStarts` | app/final_edit_capture.py:188-227 | a session comes from a start, which gives it its draft, chat, version and life |
| `FinalEditTimes.DraftIsCleared` | app/final_edit_capture.py:188-227 | a start or a cancellation leaves no older session of the draft open |
| `FinalEditTimes.NoneOutlives` | app/final_edit_capture.py:188-421 | after a call that knows the time no session is open whose life is over |
| `FinalEditTimes.FlagsMean` | app/final_edit_capture.py:423-445 | revoking and calibrating change only the flags of the rows with that id |
| `FinalEditTimes.RecordsWereConfirmed` | app/final_edit_capture.py:356-421 | in every run each record was confirmed before its session's life was over, from its chat and for its version, with the body it held |
| `FinalEditTimes.BodiesWereReceived` | app/final_edit_capture.py:257-290 | in every run a body that a session holds was received for it, from its chat and for its version, in time |
| `FinalEditTimes.RecordsHaveProvenance` | app/final_edit_capture.py:188-421 | so nothing is confirmed that was not written for that session before |
| `FicBatches.Digest.constructor` | app/fic_digest.py:707-711 | the call budget of a digest |
| `FicBatches.Digest.Spend` | app/fic_digest.py:714-722 | one call is spent, on a model not retired; a final quota failure retires it |
| `FicBatches.Digest.AskModel` | app/fic_digest.py:749-795 | at most two tries; no answer means the budget is out, a final failure or a fruitless answer is on record for that model and batch |
| `FicBatches.Digest.TryModels` | app/fic_digest.py:746-881 | the models in turn, until one settles something or a project-wide failure; otherwise each of them refused the batch; the count is that of the models retired |
| `FicBatches.Digest.TranslateSubset` | app/fic_digest.py:724-892 | what it returns was gate-accepted, and every accepted answer to a fic that was asked about is in it; a retired model is not called again and nothing follows a fatal failure; while budget is left, a fic it gives up on was refused alone by every model in service; stopping is justified |
| `FicBatches.Digest.Settle` | app/fic_digest.py:863-869 | the settled items stay and the rest is retried as a smaller batch |
| `FicBatches.Digest.Halves` | app/fic_digest.py:884-891 | the two halves, the second unless the first asks to stop |
| `FicBatches.KeptIsAccepted` | app/fic_digest.py:796-862 | only accepted items for fics of the batch are kept, the last one of a fic |
| `FicBatches.KeptIff` | app/fic_digest.py:799-847 | an item is kept exactly when its fic is of the batch and it is accepted |
| `FicBatches.Digest.AddBatch` | app/fic_digest.py:895-903 | one batch of the digest: exactly its fics, and all later ones when it stops, get an entry |
| `FicBatches.Digest.Summarize` | app/fic_digest.py:707-905 | one entry per fic, accepted by the gates or a fallback, within the budget; of distinct fics each that got an accepted answer has a summary; unless a stop was justified or the budget is out, a fallback means every model in service refused that fic alone, by a final failure or a reply without an accepted item for it |
| `FicBatches.LossesStay` | app/fic_digest.py:724-892 | later calls take no refusal back |
| `TextChunks.Chunks` | app/fic_digest.py:911-945 | every chunk is non-empty and at most the limit long, no two neighbours would have fitted into one, and the characters other than line breaks are conserved in order |
| `TextChunks.Pieces` | app/fic_digest.py:923-931 | a long block is cut into pieces within the limit, all but the last at least half of it; a short one stays whole; the same characters are conserved |
| `TextChunks.CutOne` | app/fic_digest.py:926-933 | a cut is at the last line break of the second half up to the limit, or at the limit when there is none, and loses only that break |
| `TextChunks.BlocksAreExact` | app/fic_digest.py:923 | the blocks joined by paragraph breaks are the text, and none holds one |
| `TextChunks.AddPiece` | app/fic_digest.py:933-943 | a piece joins the open chunk exactly when it fits, and flushes it otherwise |
| `TextChunks.BlocksKeepVisible` | app/fic_digest.py:923-923 | splitting at blank lines loses only line breaks |
| `Organizer.Deduplicate` | app/organizer.py:124-135 | exactly one update for every input id, the earliest of the best-scoring ones |
| `Organizer.BestExtends` | app/organizer.py:127-134 | a new version takes over exactly when it scores higher |
| `Organizer.BestHasMost` | app/organizer.py:124-135 | the best version has the most media, then the most text, then the source that goes first |
| `Organizer.LiveKeyIsInjective` | app/organizer.py:162-162 | a live key tells author, day and cluster |
| `Organizer.OtherKeys` | app/organizer.py:104-121 | no threaded or other update starts with a key a live cluster could get |
| `Organizer.ThreadKeys` | app/organizer.py:104-110 | threaded updates share a key if and only if they share their root, and never share one with an update outside threads |
| `Organizer.OccasionKeys` | app/organizer.py:104-121 | outside threads and lives keys agree exactly for appearances of one kind, day and text, for one Instagram post, or for one update |
| `Organizer.ClustersAreBridged` | app/organizer.py:155-163 | two posts get one cluster number if and only if every instant with a post from the one up to the other is followed by a post within four hours |
| `Organizer.BreakMeans` | app/organizer.py:155-163 | a cluster ends after more than four hours without a post |
| `Organizer.AssignBucket` | app/organizer.py:155-163 | the posts of an author and day numbered in order of time, one up at every longer gap, other keys untouched |
| `Organizer.NumberedTogether` | app/organizer.py:155-163 | keys of two numbered posts agree exactly when they are together |
| `Organizer.AssignKeys` | app/organizer.py:138-163 | keys agree exactly for updates of one event: bridged live posts of one author and day, or other updates of equal initial key, never one of each |
| `Organizer.GroupUp` | app/organizer.py:165-199 | one group for every key, with exactly its updates, in order of start and key |
| `Organizer.EarlierGroupsFirst` | app/organizer.py:165-199 | groups come by their first update, and those that begin together by key |
| `Organizer.Organize` | app/organizer.py:138-199 | the groups partition one best update per id into events, strictly sorted by start and key, each starting with its earliest member |
| `MediaPlan.PlanMedia` | app/forward_ready_package.py:213-251 | every item in its order, marked as a duplicate exactly when its identity is mapped or was met before |
| `MediaPlan.EligibleMedia` | app/fused_private_review_delivery.py:235-243 | the items not suppressed and the ids of the suppressed, both in order |
| `MediaPlan.SuppressedAre` | app/fused_private_review_delivery.py:235-243 | every item is one or the other, and the suppressed ids are exactly those of marked items |
| `MediaPlan.EligibleAreFirst` | app/forward_ready_package.py:213-251 | planning and suppression leave every identity not mapped as a duplicate exactly once, at its first place, in first order |
| `MediaPlan.GreedyShrinks` | app/fused_private_review_delivery.py:291-330 | leaving out leading items never needs more messages |
| `MediaPlan.GreedyIsLeast` | app/fused_private_review_delivery.py:291-330 | no legal split of the items in order has fewer messages than the greedy one |
| `MediaPlan.SendableMeans` | app/fused_private_review_delivery.py:291-330 | an album is of two to ten photos and videos; everything else goes alone |
| `DeliveryPlan.MessagesSplit` | app/fused_private_review_delivery.py:291-330 | the greedy messages are a legal split: single items, or albums of two to ten photos and videos |
| `DeliveryPlan.Planner.Append` | app/fused_private_review_delivery.py:246-288 | a unit numbered by its place, answering an earlier one or none |
| `DeliveryPlan.Planner.TakeRun` | app/fused_private_review_delivery.py:314-322 | the longest run of photos and videos one album holds |
| `DeliveryPlan.Planner.PlanMediaUnits` | app/fused_private_review_delivery.py:291-330 | the media units are the greedy messages in order and answer nothing; the last one's id, the suppressed ids and the warnings are told |
| `DeliveryPlan.Planner.AppendMessages` | app/fused_private_review_delivery.py:301-330 | the loop over eligible items sends exactly the greedy messages |
| `DeliveryPlan.Planner.AppendMessage` | app/fused_private_review_delivery.py:301-330 | the next message is a lone item that fits no album, told by a warning, or as many as an album takes |
| `DeliveryPlan.FallbackParts` | app/fused_private_review_delivery.py:333-342 | the parts of every draft with text, in order |
| `DeliveryPlan.Planner.PlanTextUnits` | app/fused_private_review_delivery.py:345-421 | a caption when it fits, else the draft's parts each answering the one before, else one text unit; earlier units stay; with the warnings of each |
| `DeliveryPlan.Planner.AppendParts` | app/fused_private_review_delivery.py:393-408 | part k of n carries draft part k and answers the last media unit or part k - 1 |
| `DeliveryPlan.Planner.PlanReviewControls` | app/fused_private_review_delivery.py:424-440 | the controls exist exactly when there is a draft, and answer the last unit |
| `DeliveryPlan.Planner.PlanContents` | app/fused_private_review_delivery.py:458-473 | the media messages, then the text, with the warnings of both |
| `DeliveryPlan.Planner.CheckAlbums` | app/fused_private_review_delivery.py:474-476 | the closing check on album sizes finds nothing |
| `DeliveryPlan.Planner.PlanDelivery` | app/fused_private_review_delivery.py:458-506 | media, then text, then controls, numbered in order, every reply to an earlier unit, with exactly the warnings due; the closing limit check never fires |
| `DeliveryPlan.DeliversEachOnce` | app/fused_private_review_delivery.py:291-330 | a plan delivers every identity not mapped as a duplicate exactly once, in first order, in the fewest messages |
| `DeliveryPlan.AlbumsWithin` | app/fused_private_review_delivery.py:474-476 | no unit of a plan holds more than ten items |
| `DeliveryPlan.CaptionIff` | app/fused_private_review_delivery.py:345-421 | a plan has a caption exactly for a current, unsplit text of at most 1024 characters under media, and it answers the last media message |
| `DeliveryPlan.PartsChain` | app/fused_private_review_delivery.py:345-421 | split text becomes one unit for each part, in order, in a chain from the last media message on |
| `DeliveryPlan.PartsCount` | app/fused_private_review_delivery.py:333-342 | every draft has as many parts as its text splits into |
| `DeliveryPlan.ControlsIff` | app/fused_private_review_delivery.py:424-440 | the controls close the plan exactly when there is a draft, answering the unit before them |
| `PackageStore.GroupedIs` | app/forward_ready_package.py:310-317 | every incoming id is in the group of its own segment or its own, and in no other |
| `PackageStore.Store.Plan` | app/forward_ready_package.py:293-367 | an error exactly when a group has only empty ids, and then nothing is stored; else the fresh packages, and when persisting the untouched old ones and the fresh ones, the last two thousand |
| `PackageStore.FreshAre` | app/forward_ready_package.py:310-352 | the fresh packages hold exactly the incoming ids, none twice |
| `PackageStore.PackagedTogetherIff` | app/forward_ready_package.py:310-352 | two incoming updates share a fresh package if and only if they are in the same segment of the same Event |
| `PackageStore.RunIsDisjoint` | app/forward_ready_package.py:354-366 | over any calls with any memberships no id is in two stored packages, and the cap holds |
| `PackageStore.IncomingArePackagedIff` | app/forward_ready_package.py:354-366 | a persisting call leaves every incoming id packaged if and only if the fresh packages fit the cap; and every untouched package stored when all of them do |
| `PackageStore.StaysPackagedIff` | app/forward_ready_package.py:354-366 | below the cap an id already packaged stays so if and only if it comes in again or no id of its package does |
| `PackageStore.LeftBehind` | app/forward_ready_package.py:354-366 | a concrete pair of calls after which an id is in no package |
| `PackageStore.RunIdsAreDistinct` | app/forward_ready_package.py:49-54 | package ids never clash, so the table by id holds every package |
| `CallbackStore.Store.Encode` | app/callback_store.py:40-65 | a payload that fits is itself; otherwise the row and the token allocated for it |
| `CallbackStore.Store.Decode` | app/callback_store.py:67-91 | a literal decodes to itself, a live token to its payload, an expired one is removed and rejected |
| `CallbackStore.Store.Prune` | app/callback_store.py:93-96 | exactly the expired rows go |
| `CallbackStore.AllocatedIs` | app/callback_store.py:50-64 | an allocated token is a digest prefix that was free or already the payload's |
| `CallbackStore.EncodePromises` | app/callback_store.py:40-65 | what encode returns is 1 to 64 bytes long, and the store holds the payload for it until it expires |
| `CallbackStore.StepKeepsPromise` | app/callback_store.py:40-96 | no call before the expiry takes a token from its payload |
| `CallbackStore.TokensAreStable` | app/callback_store.py:40-96 | in every interleaving under a monotone clock, for any digest, a returned value decodes to its payload at every later time before its life is over |
| `CallbackStore.ExpiredTokensAreRejected` | app/callback_store.py:75-91 | an expired or unknown token is rejected, and gone afterwards |
| `CallbackStore.TokensExpire` | app/callback_store.py:40-96 | a token that nobody encodes again decodes before its life is over and never after |
| `CallbackStore.PruneMeans` | app/callback_store.py:93-96 | pruning takes exactly the rows whose life is over |

## Left out

- Storage: JSON and SQL text, schema migration, row timestamps and transactions; a call is one atomic update of the tables.
- Clocks and random ids are parameters of the calls. `INSERT OR IGNORE` is modelled, so fresh attempt ids are not assumed.
- A source's timeline is the sequence of its top-level posts: a post nested in a conversation module of a page is no entry of its own.
- CursorProof.NoSilentMiss: a complete read is of one snapshot of the timeline, which holds every post dated in its window. Posts published while its pages are read, indexed late into an old window, or deleted before the read are not modelled.
- Evidence fields kept for people only: termination text, the stored copy of expected ids (capped at 5000), the provider cursor text, legacy status.
- The nested response objects: the walk over instructions and tweets takes them as lists of typed values, and handles arrive stripped and in one case.
- Exceptions of the completeness engine other than an unavailable core, an empty or reversed window and an unknown attempt.
- CompletenessEngine.Engine.Report: counts and health only; the rows of the report with their evidence and links are not modelled.
- Event and timeline decision logs and observability calls; the sanitizers that clean loaded state, with their caps on members and Events.
- Extraction of fingerprints from texts, links, media and timestamps: their results are the fields of a fingerprint.
- EventTimeline.Store.BestOverall: any unbeaten choice may be taken, where the program breaks ties by segment hash and update id; the theorems hold for every choice.
- EventTimeline.Store.BestIn: the same for the largest update id among equal matches of a Segment.
- EventTimeline.Store.Reorder: Segments of equal evidence come in any order, where the program orders them by segment hash.
- EventTimeline.Insert: the place among equal keys, for the same reason.
- EventTimeline.Store.SegmentEvent: the order in which fingerprints are taken and the container reference hashes are inputs; the guards that skip an Event of an unsegmentable type or with fewer than two fingerprints are not modelled, since the theorems hold for every pass.
- Eviction of old Events and Segments: `Pruned` keeps any chosen set of them; that the oldest go first is not modelled.
- SegmentConnectivity.ShadowRunConnected: a merge or a manual move puts updates together without a stored relation, and a removal or the eviction of a relation inside a live Segment can take the only link away.
- `ShadowPipeline` has no shadow call that raises between grouping and segmentation; `SegmentRuns.RunKeepsPartitionIff` says when the Segment maps survive one.
- Requests for a day not yet begun or a source not enabled, which raise before any job changes; the messages, the bridge queue and the per-wake time limit.
- What the collector, the archive and the delivery do inside one step of a dated request: the fields of `World` are their outcomes, raising among them. A message that cannot be sent after a job was closed or given up changes nothing in the job.
- Topic and category heuristics: whether an update is about the live or the birthday is a field of it.
- Final-edit metadata, counts and privacy references, which only read the tables.
- Text and item quality gates, item enrichment, pacing and the fallback translation itself: an item carries whether the gates accept it. An exception outside the provider call, after which every fic gets the fallback, is not modelled.
- Organizer.Organize: the order of members inside a group (part numbers, then time and id), titles and the choice of category are not modelled; members are a list in the order their ids were chosen.
- Organizer.SortByTime: ties are kept in input order instead of being broken by id; equal times never differ in cluster.
- Readiness, text authority and style preference of packages: branch tables whose result is an input of the delivery plan. Warning texts are a set.
- DeliveryPlan.Planner.PlanDelivery: readiness is not modelled, nor the check on negative text part numbers, which are naturals here.
- The `telegram_batches` slices of a media plan and the splitter of Telegram texts: the number of parts of a draft is an input.
- PackageStore.Store.Plan: incoming updates arrive in their sorted order, and a stored package is its id and members only.
