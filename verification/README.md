# Verified models of the BlitterServer library core

This project models the parts of BlitterServer that keep several views of one music library
consistent while scans, identity resolution, artwork and polling clients interleave, and proves
what those parts promise. Each module follows one component. SQL tables are maps, one
transaction is one atomic step, a goroutine is a program counter in a state machine, and time is
an integer clock. Code that updates state in place is a class whose methods are proved equal to
the steps of the state machine; the theorems are about all runs of that machine.

| module | component |
|---|---|
| `Keyset`, `DeltaSync`, `DeltaSyncLoss` | the "changes since" feed: keyset pages, sequence numbers, scans, writers and one polling client, in every interleaving |
| `ReleaseUnion`, `ReleaseUnionAnswer`, `SplitPlan`, `SplitAlbumMerge` | matching split album fragments to a release, deciding whether they may be merged, merging them |
| `ArtistEvidence`, `ArtistConsolidation`, `ConsolidatedRows` | which names point to which MusicBrainz artist, and merging duplicate artists |
| `EditionScore`, `EditionTiebreak` | scoring a release and choosing between editions tied on score |
| `LibraryManager` | source switches, scan fencing, the pending scan, enrichment triggers, the operation token |
| `IncrementalScan` | the scan that reuses cached parses against the scan that does not |
| `EventBus` | attach, replay and dedupe over the durable event log |
| `ProviderPacer`, `MusicBrainzClient` | pacing of provider requests |
| `AlbumArt` | visible artwork and the stamps that announce its changes |
| `ScrobbleLease`, `DrainLoops` | the claim lease on scrobbles, and the loops that drain due work |

What an operation decides is stated in the columns it reads and writes as well as through the
functions the methods follow: `MatchIsTheAnswer`, `SafetyExactly`, `ChosenExactly`, `EvidenceInNames`,
`PlanSelects`, `AlbumRow`, `FileAfterScan`, `RunFollowsScan`, `ReplayInFields` and the contracts of the
classes name no such function.

Run `dafny verify dfyconfig.toml` to check everything.

## What was found

Several guarantees hold only under a condition. Where the code breaks one, a run that breaks it is
proved, and the exact condition wherever it is known.

- Delta sync loses nothing if no whole scan fits between the two reads of the scanning flag, if
  numbers are taken in the transaction that uses them, and if a round one of whose pages ended
  inside the stamp of a running scan does not end with an unpinned version. Each of the three is
  needed (`WholeScanCanLose`, `AllocateThenApplyCanLose`, `CutRoundCanLose`), and from every state a
  row can still be lost if and only if one of them may be broken (`CanLoseIff`). The second is
  violated by the resolver (internal/mbresolver/resolver.go:148-153). For the third,
  api/openapi.yaml:420-427 tells clients to adopt the last page's version, which is exactly what
  loses the row.
- internal/events/bus.go:65 says that replay covers a dropped event. It does if and only if no later
  event was delivered before the reconnect, the log was not pruned that far, and at most pruneKeep
  visible rows lead up to it (`ReplayCoversIff`). A full buffer can lose an event for good
  (`OverflowLoses`), and so can fan-out out of append order (`OutOfOrderFanOutLoses`).
- Art propagation at the end of a scan (internal/store/library.go:429-437) stamps the album but
  not the tracks that fall back to the album's art, so a polling client is not told about them
  (`PropagationTellsTracksIff`, `PropagationCanLoseTracks`). Attaching art outside a scan does
  stamp them (`AttachStampsEveryChange`).
- Artist evidence can depend on the order in which Go ranges over a map (`OrderCanMatter`). It does
  if and only if a combined name "canonical (alias)" of one artist is a name from which another
  artist makes a combined name it does not own yet (`OrderMattersIff`).
- Whether `editionTiebreak` accepts can depend on the order of the candidates
  (`UnnamedRecordingsDependOnOrder`). It does not if and only if no fitting edition would be
  accepted first, or all of them align alike, an absent recording counting as an unnamed one
  (`TiebreakIgnoresOrder`).
- Playlist paging compares positions as text but sorts them as numbers
  (internal/store/profile_data.go:182-188). It is exact if and only if the two orders agree, so item
  10 is lost after item 2 (`PlaylistPagingIff`).
- The score thresholds carry evidence only while there are few enough duration hits; the exact
  bounds are in `ThresholdsCarryEvidenceIff`, and a release that repeats one position exceeds them
  (`RepeatedPositionsInflateScore`).
- A stale timer breaks the pacer's spacing (`StaleEnqueueBreaksSpacing`), and an upsert without its
  cache put breaks the incremental scan (`UnpairedUpsertDiverges`).

## Model

| member | source | states |
|---|---|---|
| `Keyset.ReadPage` | internal/store/library_changes_snapshot.go:72-92 | a page is the first `limit` rows of those the clause selects, and a cursor is offered exactly when there are more |
| `Keyset.PagingIsExact` | internal/store/library.go:848-858 | on a fixed table, if cursor comparison agrees with the sort order, following cursors delivers every row once, in order, and stops after exactly as many pages as needed |
| `Keyset.NewestFirstPaging` | internal/store/profile_data.go:346-377 | key-descending, id-ascending lists (loves) page exactly, at every page size |
| `Keyset.PagingIsExactIff` | internal/store/library.go:848-858 | for any strict order the cursor may compare by, paging is exact at every page size if and only if each row of the table lies beyond the row before it |
| `Keyset.PlaylistPagingIff` | internal/store/profile_data.go:174-205 | a playlist pages exactly, at every page size, if and only if its positions in numeric order are in text order too; 1, 2, 30 are, 2, 10 are not |
| `Keyset.SameWidthPlaylistPaging` | internal/store/profile_data.go:174-205 | positions with one number of digits are in text order, so such a playlist pages exactly and stops after as many pages as needed |
| `DeltaSync.ChangesSinceQuery` | internal/store/library_changes_snapshot.go:45-93 | a page holds only wanted rows in feed order, and every wanted row is in the page or lies beyond its cursor |
| `DeltaSync.FeedPaging` | internal/store/library_changes_snapshot.go:45-93 | on a fixed catalog the feed's cursors visit every row once in (number, kind, id) order and stop |
| `DeltaSync.PageInRows` | internal/store/library_changes_snapshot.go:45-93 | a page in columns: rows as they are, above the version and past the cursor, by number, kind and id; none up to the last one of the page is left out, and without a next cursor none at all |
| `DeltaSync.InvStep` | internal/server/library_changes.go:12-77 | every step of scans, writers, source switches and the client keeps the protocol invariant: a row the client does not hold exactly is still ahead of it |
| `DeltaSync.NothingIsLost` | internal/server/library_changes.go:25-84 | in every run that meets the three hypotheses, each row is held exactly or still to be delivered, and a drained client holds exactly the present rows |
| `DeltaSync.UndisturbedRoundDrains` | internal/server/library_changes.go:25-77 | one undisturbed round, however many pages it takes, leaves the client with exactly the present rows at the server's version |
| `DeltaSyncLoss.WholeScanCanLose` | internal/server/library_changes.go:25-42 | from any reachable state between the two reads of the scanning flag, a whole scan in between can lose any row it creates |
| `DeltaSyncLoss.AllocateThenApplyCanLose` | internal/mbresolver/resolver.go:148-153 | a number taken before the transaction that stamps rows with it lets an idle client pass it and lose the rows |
| `DeltaSyncLoss.CutRoundCanLose` | internal/server/library_changes.go:25-84 | once a page ended inside the stamp of a running scan, finishing the round after the scan loses a row below the cursor |
| `DeltaSyncLoss.CutRoundArises` | internal/server/library_changes.go:25-84 | such a round is reachable in a run that meets the hypotheses so far |
| `DeltaSyncLoss.CanLoseIff` | internal/server/library_changes.go:25-84 | from every state a good run reaches, and for every choice of hypotheses kept up from there on, some continuation ends drained without a present row if and only if one of the three hypotheses may be broken |
| `ReleaseUnion.MatchReleaseUnion` | internal/store/split_album_reconciliation.go:253-331 | the loops compute Match, whatever order the maps are iterated in; MatchIsTheAnswer says what Match is |
| `ReleaseUnion.AcceptedUnionIsBijection` | internal/store/split_album_reconciliation.go:253-331 | an accepted match is a bijection from local track ids onto the release's positions, each disc being exactly 1..k; moved tracks permute among their own positions, the others stay; at most n/5 tracks lack evidence |
| `ReleaseUnion.EvidencedUnionAccepted` | internal/store/split_album_reconciliation.go:278-331 | when every track has evidence in place, the union is accepted if and only if the shapes agree, and every track keeps its position |
| `ReleaseUnionAnswer.MatchIsTheAnswer` | internal/store/split_album_reconciliation.go:253-331 | for every input, the answer is m if and only if the release is complete, the tracks are as many and on distinct positions of it, m leaves a track at its position unless that lacks evidence and exactly one release track of its title and duration is at no settled or earlier moved track's position, m gives no position twice, and at most a fifth of the tracks stay without evidence |
| `ReleaseUnionAnswer.CorrectedUnionAccepted` | internal/store/split_album_reconciliation.go:278-331 | a union whose misplaced tracks each fit one position only, all different, is accepted with exactly those corrections |
| `ReleaseUnion.IndexRelease` | internal/store/split_album_reconciliation.go:257-270 | the release is indexed by position, and refused when a position repeats or is not positive |
| `ReleaseUnion.DiscsComplete` | internal/store/split_album_reconciliation.go:271-277 | the per-disc check is contiguity of every disc |
| `ReleaseUnion.SeatTracks` | internal/store/split_album_reconciliation.go:278-294 | every local track must sit on a position of its own; those with evidence there are matched |
| `ReleaseUnion.UniqueOpening` | internal/store/split_album_reconciliation.go:299-309 | a track moves only to the one free position it fits, independently of the order of the search |
| `ReleaseUnion.CorrectIndices` | internal/store/split_album_reconciliation.go:295-315 | the second pass moves exactly the tracks with a unique opening |
| `ReleaseUnion.KeepPositions` | internal/store/split_album_reconciliation.go:319-330 | the third pass keeps the rest in place, and refuses when a position is taken |
| `SplitPlan.SnapshotCheckIsExact` | internal/store/musicbrainz.go:507-522 | the snapshot check passes if and only if the header is unchanged and both lists hold the same tracks, in any order |
| `SplitPlan.StaleFragmentEvidence` | internal/store/split_album_reconciliation.go:333-364 | evidence is stale unless the counts agree and every recorded fragment is planned and unchanged; without recorded snapshots nothing is stale |
| `SplitPlan.CurrentEvidenceIsExact` | internal/store/split_album_reconciliation.go:333-364 | evidence is current if and only if the fragments planned now are exactly those the lookup saw, each unchanged |
| `SplitPlan.PlanSplit` | internal/store/split_album_reconciliation.go:108-251 | a plan is safe if and only if fragments fit, art is agreed, evidence is current, candidates do not diverge, the union matches, profiles do not conflict and the release is free; it then names fragments, owners, art and match |
| `SplitPlan.SafetyExactly` | internal/store/split_album_reconciliation.go:108-251 | in columns: a plan is safe if and only if every fragment is a loose album with all its tracks there, an artless anchor finds no two arts, the evidence is current, no editions diverge, the union matches, no profile disagrees with itself and no other album holds the release |
| `SplitPlan.Judge` | internal/store/split_album_reconciliation.go:146-251 | checking fragments, artwork, recorded evidence, stored editions, the match, profiles and the release id one after another decides exactly the conjunction above |
| `SplitPlan.DivergentCompleteEditions` | internal/store/split_album_reconciliation.go:366-395 | comparing each complete stored edition with the first one finds exactly whether two of them list different recordings |
| `SplitPlan.UnionTracks` | internal/store/split_album_reconciliation.go:203-221 | the union lists every present track of anchor and fragments once, by id, with directory discs filled in |
| `SplitPlan.UnionInRows` | internal/store/split_album_reconciliation.go:203-221 | the union's tracks in the columns of their rows, each present track once, with the disc of the directory exactly where the tag names none |
| `SplitPlan.CompatibleAlbums` | internal/store/split_album_reconciliation.go:108-146 | exactly the present albums of the year with a compatible title and no other release group |
| `SplitPlan.CheckFragments` | internal/store/split_album_reconciliation.go:163-185 | fragments fit exactly when each is unclaimed and all its tracks, at least one, are present |
| `SplitPlan.ChooseArt` | internal/store/split_album_reconciliation.go:186-193 | an artless anchor takes the one art its fragments agree on, and disagreement is unsafe |
| `SplitPlan.SafePlanMergesWholeUnion` | internal/store/split_album_reconciliation.go:108-472 | with a safe plan the tracks merged are exactly the matched union, all of them present and mapped one to one onto the release; no fragment track stays behind and every profile keeps its opinion |
| `SplitAlbumMerge.ProfilesDisagree` | internal/store/split_album_reconciliation.go:397-412 | one scan that remembers each profile's first value reports a conflict exactly when some profile holds two different opinions among the albums |
| `SplitAlbumMerge.MergeKeepsOpinions` | internal/store/split_album_reconciliation.go:427-444 | each profile keeps exactly one opinion on the survivor, its first row, the table stays unique, other refs are untouched |
| `SplitAlbumMerge.ConflictCheckIsExact` | internal/store/split_album_reconciliation.go:397-444 | merging preserves the value of every opinion if and only if no profile disagrees with itself |
| `SplitAlbumMerge.MergeKeepsRecommendations` | internal/store/split_album_reconciliation.go:445-452 | each distinct recommendation (sender, recipient, kind, seen, and note, an absent one being empty) of survivor or fragment is kept exactly once on the survivor, in its first row; others are untouched |
| `SplitAlbumMerge.GuardedMergeConserves` | internal/store/split_album_reconciliation.go:397-444 | after the guarded merge each profile with an opinion has exactly one on the survivor, with the same value, in loves and ratings |
| `SplitAlbumMerge.Tables.MoveTracks` | internal/store/split_album_reconciliation.go:414-421 | every track of survivor and fragments ends under the survivor with the new stamp; no other track changes |
| `SplitAlbumMerge.MergeOpinions` | internal/store/split_album_reconciliation.go:427-444 | deleting all but each profile's first row, found by one scan, and redirecting the rest gives the table of which MergeKeepsOpinions and ConflictCheckIsExact speak |
| `SplitAlbumMerge.MergeRecommendations` | internal/store/split_album_reconciliation.go:445-452 | redirecting and deleting all but the first row of each group, found by one scan, gives the table of which MergeKeepsRecommendations speaks |
| `SplitAlbumMerge.Tables.RetireFragments` | internal/store/split_album_reconciliation.go:459-464 | fragments go missing, the survivor is stamped, other albums are untouched |
| `SplitAlbumMerge.Tables.RefreshOwners` | internal/store/split_album_reconciliation.go:465-471 | each owner is missing exactly when it owns no present album; other artists are untouched |
| `SplitAlbumMerge.Tables.ApplySplitAlbumPlan` | internal/store/split_album_reconciliation.go:414-472 | the whole transaction on all eight tables, and what it leaves unchanged |
| `ArtistEvidence.MusicBrainzArtistEvidence` | internal/store/artist_identity.go:343-399 | the loops compute Evidence for the order in which the last range visits the artists |
| `ArtistEvidence.CombineNames` | internal/store/artist_identity.go:386-397 | one artist's aliases are combined, each looked up in the table as extended so far |
| `ArtistEvidence.CanonicalNameWins` | internal/store/artist_identity.go:379-398 | in every order the canonical name of a tagged artist points to that artist, so no other is ever singled out for it |
| `ArtistEvidence.OrderMattersIff` | internal/store/artist_identity.go:386-398 | for all artists, every order of the range gives the same evidence if and only if no combined name of one artist is the canonical name, or the alias, from which another artist makes a combined name it does not own yet |
| `ArtistEvidence.PassGrants` | internal/store/artist_identity.go:386-398 | when that is so, the pass gives each artist exactly the combined names the table before the pass grants it, in whatever order it visits them |
| `ArtistEvidence.EvidenceInNames` | internal/store/artist_identity.go:343-399 | where no combined name is itself a name, a name points to the artists it is the canonical name of, or if there are none an alias of, and "name (alias)" also to the one artist whom both point to alone, in every order |
| `ArtistEvidence.OrderCanMatter` | internal/store/artist_identity.go:386-398 | two artists for which one order gives a name to one artist and the other order to nobody |
| `ArtistConsolidation.GroupsAreDisjoint` | internal/store/artist_consolidation.go:54-154 | with unique MusicBrainz ids no artist is a source of two groups and no source is canonical |
| `ArtistConsolidation.PlanStaysValid` | internal/store/artist_consolidation.go:184-244 | when the run reaches a group, planning it again would give the same sources and the same answer to the collision check |
| `ArtistConsolidation.ConsolidationRedirects` | internal/store/artist_consolidation.go:184-244 | every album, track and credit row is kept once, references to a merged source lead to its canonical artist and all others are unchanged |
| `ArtistConsolidation.NoReferenceToRetired` | internal/store/artist_consolidation.go:184-244 | no row refers to a retired artist |
| `ArtistConsolidation.MergedTitlesAreDistinct` | internal/store/artist_consolidation.go:156-244 | no two untagged albums of a merged group's canonical artist have one folded title after the run |
| `ArtistConsolidation.ChangingRunMakesProgress` | internal/store/artist_consolidation.go:100-244 | a run that changes anything strictly lowers the number of untagged artists owning a present album |
| `ArtistConsolidation.ConsolidationIsStamped` | internal/store/artist_consolidation.go:184-240 | every present album or track whose artist or credits changed carries the run's number |
| `ArtistConsolidation.EveryGroupDone` | internal/store/artist_consolidation.go:205-240 | at the end every source of a merged group is missing and stamped, and the canonical artist is stamped, has the first art there was and is present exactly when it owns a present album |
| `ConsolidatedRows.PlanSelects` | internal/store/artist_consolidation.go:54-182 | a group in columns: its canonical row's id, name and art; as sources, once each, the untagged artists of that evidence beside one that has a present album; and whether two untagged albums of theirs have one title |
| `ConsolidatedRows.AlbumRow` | internal/store/artist_consolidation.go:184-240 | an album after the run: moved to the canonical artist and stamped when its artist was merged, stamped alone when it is present and credits a merged artist, and else as it was |
| `ConsolidatedRows.TrackRow` | internal/store/artist_consolidation.go:184-240 | a track after the run likewise, with the canonical artist's name when it moved |
| `ConsolidatedRows.CreditRows` | internal/store/artist_consolidation.go:201-210 | credits of merged artists name the canonical ones, all others are as they were |
| `ConsolidatedRows.ArtistRow` | internal/store/artist_consolidation.go:211-240 | an artist after the run: merged ones missing and stamped, canonical ones stamped, with their own or the first source's art, present exactly with a present album, and every other row as it was |
| `ArtistConsolidation.Tables.MatchingAlbumOwners` | internal/store/artist_consolidation.go:100-121 | exactly the untagged owners of a present album whose name points to this id alone |
| `ArtistConsolidation.Tables.LinkedMatchingArtists` | internal/store/artist_consolidation.go:123-154 | exactly the matching untagged artists linked to some owner, each listed once |
| `ArtistConsolidation.Tables.AlbumCollision` | internal/store/artist_consolidation.go:156-182 | one pass finds a collision exactly when two untagged albums of the group share a folded title |
| `ArtistConsolidation.Tables.PlanGroups` | internal/store/artist_consolidation.go:54-98 | one correctly planned group for each tagged artist whose aliases are known |
| `ArtistConsolidation.Tables.MergeGroup` | internal/store/artist_consolidation.go:186-240 | all sources of a group merged, then the canonical artist stamped and its presence recomputed |
| `ArtistConsolidation.Tables.MergeIfSafe` | internal/store/artist_consolidation.go:186-242 | a group that collides or has no sources is skipped, any other merged |
| `ArtistConsolidation.Tables.Merge` | internal/store/artist_consolidation.go:191-233 | the statements for one source amount to MergedOne |
| `ArtistConsolidation.Tables.ConsolidateGroups` | internal/store/artist_consolidation.go:184-244 | the run equals MergedAll and reports whether any group applied |
| `ArtistConsolidation.Tables.ConsolidateAtNextSequence` | internal/store/artist_identity.go:195-230 | nothing happens while metadata is pending or nothing changed since the last run; otherwise a fresh plan is carried out, and a number is taken only when something merges |
| `EditionScore.ScoreRelease` | internal/mbresolver/resolver.go:378-445 | the loops compute Score and the evidence behind it |
| `EditionScore.CountMedia` | internal/mbresolver/resolver.go:411-435 | the nested loops count tracks, and hits of each kind, over all media and local tracks |
| `EditionScore.ScoreInRows` | internal/mbresolver/resolver.go:378-445 | 45 points for the title, 25 for an artist, 10 for the year, 10 for the number of tracks, and 10 for the share of tracks with close durations, the hits being the pairs of tracks that meet at a position |
| `EditionScore.HitsAtMostLocals` | internal/mbresolver/resolver.go:413-435 | with distinct candidate positions there are at most as many hits as local tracks, counted either way round |
| `EditionScore.ThresholdsCarryEvidence` | internal/mbresolver/resolver.go:378-483 | with distinct positions and a true track count the score is within 0 and 100, 60 takes an exact title, 80 an exact title and a matched artist |
| `EditionScore.ThresholdsCarryEvidenceIff` | internal/mbresolver/resolver.go:378-445 | with h duration hits and n > 0 tracks declared, no choice of titles, artists and years reaches 60 without an exact title, or 80 without title and artist, if and only if 2h < 3n when the totals agree and 2h < 5n otherwise; none passes 100 if and only if h <= n, or h <= 2n |
| `EditionTiebreak.ChooseEdition` | internal/mbresolver/resolver.go:197-235 | the loops compute Tiebreak |
| `EditionTiebreak.Align` | internal/mbresolver/resolver.go:269-281 | the triple loop computes the aligned recordings, the last candidate track at a position winning |
| `EditionTiebreak.SameAsIsEquality` | internal/mbresolver/resolver.go:222-231 | with recording ids present, comparing sizes and looked-up values is equality of the maps |
| `EditionTiebreak.TiebreakAcceptsAgreement` | internal/mbresolver/resolver.go:197-235 | a choice is made if and only if the first fitting edition has a non-empty group that all share and an alignment that each of the others repeats; with recording ids present, if and only if the fitting editions agree with each other |
| `EditionTiebreak.ChosenExactly` | internal/mbresolver/resolver.go:197-235 | an edition is chosen if and only if it is the first with exact title and track count and the evidence its score calls for, its release group has an id, and all others that qualify share the group and repeat its recordings |
| `EditionTiebreak.AlignedInRows` | internal/mbresolver/resolver.go:269-281 | the recording aligned at a position is that of the last candidate track there, when a local track is there too |
| `EditionTiebreak.TiebreakIgnoresOrder` | internal/mbresolver/resolver.go:197-281 | for every list of candidates, all orders are accepted alike if and only if no fitting edition would be accepted first, or all fitting ones align alike at every position; recording ids are enough for that, and editions accepted in two orders share their release group and the recordings at every local position |
| `EditionTiebreak.UnnamedRecordingsDependOnOrder` | internal/mbresolver/resolver.go:222-231 | two scored editions, one with an unnamed recording, accepted in one order and rejected in the other |
| `LibraryManager.InvStep` | internal/library/manager.go:143-407 | every step keeps the scan, source, enrichment and token invariants |
| `LibraryManager.FencedJobNeverWrites` | internal/library/scan.go:154-165 | a scan job live at a source switch writes no catalog row after it, in any run |
| `LibraryManager.WritesAreCurrent` | internal/library/scan.go:158-165 | every catalog write of a run is made in the epoch its job was started in |
| `LibraryManager.ScanFlags` | internal/library/scan.go:29-37 | `scanning` holds exactly when a scan goroutine is live, a pending scan means the live job is stale, and the source switched in last is scanned or pending |
| `LibraryManager.PendingScanStarts` | internal/library/scan.go:145-152 | when the live job ends, a pending scan starts for the current source unless closed; otherwise none is live |
| `LibraryManager.OneHolder` | internal/library/scan.go:167-180 | token plus holders is always one, so a scan body and a Run never overlap |
| `LibraryManager.WorkIsAttended` | internal/library/manager.go:143-249 | while open, a pending trigger, reset or unanswered trigger has a live worker |
| `LibraryManager.DebtsStand` | internal/library/manager.go:162-249 | a trigger or reset stays owed until a step of the run pays it |
| `LibraryManager.TriggerIsAnswered` | internal/library/manager.go:143-249 | the enrichment goroutine never stops before a Run has started after the trigger |
| `LibraryManager.EveryScanIsAnnouncedOnce` | internal/library/scan.go:55-124 | in every run the scans that ended uncancelled with their job current on an open manager are as many as the announcements made and still to come; a stale, cancelled or closed one is never announced |
| `LibraryManager.RunFollowsScan` | internal/library/scan.go:55-124 | after such an end, once nothing is left to announce and the enrichment goroutine has stopped, on an open manager whose enricher was set throughout, a Run has started since |
| `LibraryManager.RunSeesResets` | internal/library/manager.go:192-221 | a reset requested before a Run was decided on has succeeded between the request and the decision |
| `LibraryManager.RunArrives` | internal/library/manager.go:162-249 | from every reachable open state with an unanswered trigger, at most 14 steps of the manager's own lead to a Run |
| `LibraryManager.Manager.TriggerEnrichment` | internal/library/manager.go:143-160 | the method performs exactly the Trigger step |
| `LibraryManager.Manager.constructor` | internal/library/manager.go:265-292 | a new manager is idle and open, its token free, with the restored source if there is one |
| `LibraryManager.Manager.SetEnricher` | internal/library/manager.go:96-116 | the enricher is set or taken away; requests made under one taken away lapse |
| `LibraryManager.Manager.Close` | internal/library/manager.go:252-262 | closing changes nothing else |
| `LibraryManager.Manager.AcquireForScan` | internal/library/scan.go:167-178 | a waiting scan takes the free token of an open manager |
| `LibraryManager.Manager.Configure` | internal/library/manager.go:298-343 | accepted exactly when the manager is open and the store does not fail; then it performs the Configure step, with a new source identity and the scan started or pending, and otherwise changes nothing |
| `LibraryManager.Manager.BeginUnlink` | internal/library/manager.go:346-362 | accepted exactly when the manager is open; then every live scan is fenced and a pending one dropped, and otherwise nothing changes |
| `LibraryManager.Manager.CommitUnlink` | internal/library/manager.go:382-388 | a committed unlink adopts the store's generation |
| `LibraryManager.Manager.AbandonUnlink` | internal/library/manager.go:363-381 | a failed unlink puts the source back under a new generation and rescans it, unless closed |
| `LibraryManager.Manager.Rescan` | internal/library/manager.go:393-407 | accepted exactly when open with a source; starts a scan unless one is live |
| `LibraryManager.Manager.WriteIfCurrent` | internal/library/scan.go:158-165 | a write happens exactly when the job is current and the manager open |
| `LibraryManager.Manager.FinishScanJob` | internal/library/scan.go:55-152 | the bookkeeping performs exactly the ScanFinish step: an announcement is due exactly for a current, uncancelled job on an open manager, and a stale job hands over to the pending scan |
| `LibraryManager.Manager.ReleaseAfterScan` | internal/library/scan.go:57-62 | the token is given back, and enrichment is announced when due |
| `LibraryManager.Manager.EnrichmentStep` | internal/library/manager.go:162-249 | one step of the loop performs exactly the WorkerStep step |
| `IncrementalScan.CachedScanRefinesPlainScan` | internal/library/scan.go:182-310 | after any history of whole, stopped and cleared scans with paired writes, a cached scan leaves the present tracks and raw metadata of a scan without the cache, namely those of the files |
| `IncrementalScan.ScanMirrorsIffHitsAgree` | internal/library/scan.go:201-310 | whatever the tables hold, a scan mirrors the files if and only if the rows of its cache hits hold those files' true parses |
| `IncrementalScan.PlainScanMirrors` | internal/library/scan.go:201-310 | a scan without the cache always mirrors the files |
| `IncrementalScan.PresentIsSeen` | internal/store/library.go:416-428 | after a scan a track is present exactly when its native id was seen |
| `IncrementalScan.HistoryCoherent` | internal/store/source_file_cache.go:33-77 | in every paired history each cache row holds the true parse of its fingerprint, which is also in the library |
| `IncrementalScan.UnpairedUpsertDiverges` | internal/library/scan.go:261-291 | an upsert without its cache put, and an edit undone, make the next cached scan differ |
| `IncrementalScan.StampsTellChanges` | internal/store/library.go:245-281 | a row's stamp moves exactly when its presence or raw metadata changed, or it is new |
| `IncrementalScan.FileAfterScan` | internal/library/scan.go:201-310 | one file after a scan: unchanged since it was cached by this parser and in the library it keeps entry and metadata, else it is parsed and both are replaced, or its track goes missing when it does not parse |
| `IncrementalScan.GoneAfterScan` | internal/store/source_file_cache.go:120-136 | a file no longer there loses its cache row and its track goes missing |
| `IncrementalScan.FileAfterStop` | internal/library/scan.go:201-310 | a stopped scan replaces the rows of the files it parsed and no others |
| `IncrementalScan.MarkedTwice` | internal/store/library.go:1402-1427 | marking one set after another marks their union |
| `IncrementalScan.Library.MarkTracksSeen` | internal/store/library.go:1402-1427 | the chunks of 400 act as one update of all ids |
| `IncrementalScan.Library.UpsertTrack` | internal/store/library.go:245-281 | the row is present and seen, and stamped exactly when it was new, missing or different |
| `IncrementalScan.Library.Scan` | internal/library/scan.go:182-310 | a finished scan is CachedScan, a cancelled one leaves the visited prefix unfinalized |
| `IncrementalScan.Library.Finalize` | internal/store/source_file_cache.go:120-136 | seen rows marked, absent cache rows pruned and unseen rows missing, in one step |
| `EventBus.DeliveryIsOrderly` | internal/events/bus.go:81-137 | in every interleaving a subscriber gets only its own or instance-wide events newer than `since`, strictly increasing, without duplicates |
| `EventBus.ExactlyOnce` | internal/events/bus.go:49-137 | if fan-out follows append order, this subscriber's buffer does not overflow and its replay covers what it needs, it has received an initial segment, and all of it exactly once when nothing is in flight, whatever every other subscriber does |
| `EventBus.RecentResume` | internal/store/profile_data.go:868-897 | a resume at most pruneKeep events behind meets the replay hypothesis |
| `EventBus.HypInFields` | internal/events/bus.go:54-112 | what ExactlyOnce asks of each step, in fields: oldest event first, room in the 64-slot buffer, a replay that succeeds, misses no pruned event and has at most ten thousand to read |
| `EventBus.ReplayInFields` | internal/store/profile_data.go:868-891 | a replay reads the retained events of the profile, or of none, after `since`, in order, exactly those with at most ten thousand up to and including them |
| `EventBus.OvertakenIsLost` | internal/events/bus.go:60-68 | an event overtaken by a later delivery is never delivered and not replayed by a resume from the last number |
| `EventBus.ReplayCoversIff` | internal/events/bus.go:60-137 | after a reconnect from the last received number an event no longer in flight is delivered if and only if the replay succeeded and the event is newer than that number, not pruned, and among the first pruneKeep visible rows; nothing is received twice across the reconnect |
| `EventBus.OverflowLoses` | internal/events/bus.go:60-68 | a run with every fan-out in append order in which a full 64-slot buffer drops an event that a later delivery overtakes |
| `EventBus.OutOfOrderFanOutLoses` | internal/events/bus.go:54-69 | a run in which fan-out out of append order loses an event |
| `EventBus.Broker.AppendEvent` | internal/store/profile_data.go:852-866 | the event gets the next number and awaits fan-out |
| `EventBus.Broker.FanOutEvent` | internal/events/bus.go:59-69 | one fan-out offers the event to every attached subscriber it is visible to, dropping it where the buffer is full |
| `EventBus.Broker.PruneEvents` | internal/store/profile_data.go:893-897 | pruning keeps the newest rows |
| `EventBus.Broker.SubscribeFrom` | internal/events/bus.go:81-90 | a new subscriber is attached before anything is replayed |
| `EventBus.Broker.ReceiveLive` | internal/events/bus.go:115-120 | a live event already replayed is dropped, any other is taken in hand |
| `EventBus.Broker.SendNext` | internal/events/bus.go:96-123 | the next replayed row or the event in hand is delivered and becomes the last one sent |
| `ProviderPacer.FirstComeFirstServed` | internal/enrich/pacer.go:22-73 | in every run grants follow arrival order, a waiting queue has a timer, and any due timer grants the head |
| `ProviderPacer.WaiterIsServed` | internal/enrich/pacer.go:60-73 | the waiter at position k is granted by the next k + 1 firings, whatever was cancelled before |
| `ProviderPacer.GrantsAreSpaced` | internal/enrich/pacer.go:22-73 | grants are at least `interval` apart in every run in which nobody queues up behind nobody while a timer is out |
| `ProviderPacer.OneTimerWhileWaiting` | internal/enrich/pacer.go:22-73 | where no cancellation empties the queue there is one timer exactly while somebody waits, and grants are spaced |
| `ProviderPacer.StaleEnqueueBreaksSpacing` | internal/enrich/pacer.go:35-55 | right after any stale enqueue three more steps give two grants at one instant |
| `ProviderPacer.StaleEnqueueArises` | internal/enrich/pacer.go:44-57 | a stale enqueue is reachable by one cancellation |
| `ProviderPacer.Pacer.Wait` | internal/enrich/pacer.go:22-42 | the method performs exactly the Arrive step, for every caller |
| `ProviderPacer.Pacer.CancelWait` | internal/enrich/pacer.go:46-57 | the method removes exactly the cancelled waiter, if it still waits |
| `ProviderPacer.Pacer.Advance` | internal/enrich/pacer.go:60-73 | the method performs exactly the Fire step |
| `ProviderPacer.Pacer.constructor` | internal/enrich/pacer.go:18-20 | a new pacer has no grant, no waiter and no timer |
| `MusicBrainzClient.StartsAreSpaced` | internal/musicbrainz/client.go:234-270 | with any number of concurrent calls, n requests take at least n - 1 intervals |
| `MusicBrainzClient.NoStartDuringBackoff` | internal/musicbrainz/client.go:253-265 | once a response asks for a delay, no request of any call starts before the delay is over |
| `MusicBrainzClient.DeadlineNeverDecreases` | internal/musicbrainz/client.go:271-277 | the shared retry deadline never moves back |
| `MusicBrainzClient.RequestsAreBounded` | internal/musicbrainz/client.go:162-210 | one call makes at most max(0, maxRetries) + 1 requests |
| `MusicBrainzClient.RetriesExactlyWhileAllowed` | internal/musicbrainz/client.go:200-225 | after a response that asks for a delay the call tries again exactly while it has retries left and the backoff was stored; otherwise it ends |
| `MusicBrainzClient.OneRequestInFlight` | internal/musicbrainz/client.go:234-240 | two requests are never in flight at once |
| `MusicBrainzClient.Client.Begin` | internal/musicbrainz/client.go:130-161 | a cached retry time ends the call and extends the deadline; otherwise the call waits for the gate |
| `MusicBrainzClient.Client.constructor` | internal/musicbrainz/client.go:98-128 | a retry limit of zero becomes two; the gate is free and nothing has started |
| `MusicBrainzClient.Client.Enter` | internal/musicbrainz/client.go:234-240 | a waiting call takes the free gate |
| `MusicBrainzClient.Client.ExtendRetry` | internal/musicbrainz/client.go:271-277 | the deadline becomes the later of the two |
| `MusicBrainzClient.Client.Fail` | internal/musicbrainz/client.go:234-270 | a call that ends early gives the gate back if it held it |
| `MusicBrainzClient.Client.ReadTimes` | internal/musicbrainz/client.go:241-247 | the later of next start and deadline is read under the gate |
| `MusicBrainzClient.Client.StartOrSleep` | internal/musicbrainz/client.go:248-252 | a request starts, and moves the next start, exactly when the clock has reached the time read |
| `MusicBrainzClient.Client.DelayFor` | internal/musicbrainz/client.go:289-297 | Retry-After when positive, otherwise 2^attempt intervals |
| `MusicBrainzClient.Client.Respond` | internal/musicbrainz/client.go:253-265 | pressure is installed before the gate is given back |
| `MusicBrainzClient.Client.Handle` | internal/musicbrainz/client.go:193-225 | the deadline is extended again, then the call retries or ends |
| `AlbumArt.AttachStampsEveryChange` | internal/store/art_attachment.go:46-66 | every present album, track or artist whose visible art differs after attaching album art carries the new number |
| `AlbumArt.PropagationTellsTracksIff` | internal/store/library.go:429-437 | scan-end propagation stamps every change of albums and artists, and of tracks if and only if no unstamped track borrows the art its album just took |
| `AlbumArt.PropagationCanLoseTracks` | internal/store/library.go:429-437 | a track whose visible art changes at the end of a scan without a new number |
| `AlbumArt.PropagationInRows` | internal/store/library.go:429-437 | scan-end propagation in columns: an artless album takes the art of its first present track that has some, an artless artist that of a present album, both with the stamp, and no other row changes |
| `AlbumArt.Artwork.FirstAlbumWithArt` | internal/store/library.go:860-863 | one pass finds the first present album with art by year or 9999, title and id |
| `AlbumArt.Artwork.SetAlbumArt` | internal/store/art_attachment.go:46-66 | written exactly when the album exists without art, and then with all dependent stamps |
| `AlbumArt.Artwork.SetAlbumArtAtNextSequence` | internal/store/art_attachment.go:12-44 | a number is taken only for an album that gets art |
| `ScrobbleLease.ClaimsAreSeparated` | internal/store/lastfm.go:214-257 | two claims of a session are separated by a finish plus 2^min(k,6) minutes, k counting the finishes before, or by more than five minutes |
| `ScrobbleLease.SupersededFinishIsVoid` | internal/store/lastfm.go:214-225 | once another claim took effect, the earlier claimant's finish changes nothing |
| `ScrobbleLease.TerminalIsAbsorbing` | internal/store/lastfm.go:214-257 | a terminal session never changes again |
| `ScrobbleLease.Sessions.ClaimPending` | internal/store/lastfm.go:241-257 | of the listed sessions exactly those that still qualify are claimed and returned |
| `ScrobbleLease.Sessions.FinishPlay` | internal/store/lastfm.go:214-225 | a finish affects the session only under the current claim, with the backoff of its attempt count |
| `ScrobbleLease.Sessions.Insert` | internal/store/profile_data.go:541-545 | an existing session is never reset |
| `DrainLoops.RecordedIsDueIff` | internal/store/musicbrainz.go:111-128 | a recorded result leaves its album due exactly when it is neither matched nor put off, makes no other album due, and no artwork |
| `DrainLoops.RetiredAreNotDue` | internal/store/split_album_reconciliation.go:452-461 | retired fragments are due for nothing, although dropping their match rows alone would make them due; other albums are unaffected |
| `DrainLoops.AppliedIsNotDue` | internal/store/musicbrainz.go:177-377 | an applied release takes its own album and the fragments out of the due set and adds no album to it; the artwork of an artless album with a new identity is due at once |
| `DrainLoops.AppliedInRows` | internal/store/musicbrainz.go:177-377 | the rows after an applied release: identity, art, version and artwork schedule of the album, its match row with one more attempt, fragments missing and without match rows, all others untouched |
| `DrainLoops.RowSettles` | internal/store/library.go:581-606 | a row with art or with a retry a day away is not due, and no other album becomes due by writing it |
| `DrainLoops.Library.ApplyRelease` | internal/store/musicbrainz.go:177-377 | kept exactly when the snapshot is stale, the plan unsafe, or nothing changes and the same result is recorded; otherwise the new rows of albums and matches |
| `DrainLoops.Library.Resolve` | internal/mbresolver/resolver.go:55-189 | however a resolve ends, albums only leave the due set, and one that recorded or applied something left it, settled for a day or more |
| `DrainLoops.Library.ResolvePass` | internal/mbresolver/runner.go:53-78 | a pass that applied a match strictly lowered the due set |
| `DrainLoops.Library.RunWithProgress` | internal/mbresolver/runner.go:33-89 | at most as many passes as albums leave the due set, plus one; the loop ends drained, settled, cancelled or on a failed query, and what left the due set is missing, matched or put off by a day or more |
| `DrainLoops.Library.MarkArtAttempt` | internal/store/library.go:675-699 | a retry a day after a transient failure, a week after a miss and thirty days from the second miss on; a failing second statement leaves the week |
| `DrainLoops.Library.AttachArt` | internal/store/art_attachment.go:12-44 | art is attached exactly to an existing album without art |
| `DrainLoops.Library.AttemptAlbum` | internal/enrich/artwork_pipeline.go:79-134 | an attempt progresses unless the attach or its retry schedule fails, also against a rival writer; then its album is no longer due and no other became due |
| `DrainLoops.Library.AttemptPage` | internal/enrich/artwork_pipeline.go:78-134 | a page that progressed strictly lowered the due set, and one that did not contains a failed attempt |
| `DrainLoops.Library.RunAlbumArtStage` | internal/enrich/artwork_pipeline.go:58-141 | at most as many pages as albums leave the due set, plus one; the stage ends with no due album unless cancelled, late, stalled on a failed attempt or on a failed query, and what left the due set has art or a retry a day or more away |

## Left out

- DeltaSync.NothingIsLost: states what the client holds of a row's own content, because derived columns (counts, fallback art, names of other rows) change without a write to the row; AlbumArt treats the fallback art.
- ArtistConsolidation.Tables.LinkedMatchingArtists: does not state the order of the sources; only which source's art is taken first depends on it.
- ArtistConsolidation.EveryGroupDone: does not model aliases of the merged artists, whose rows are only added.
- LibraryManager.RunArrives: bounds the manager's own steps, because fair scheduling of goroutines is not part of the model.
- SplitPlan.PlanSplit: takes the directory's title and disc numbers (path evidence) as inputs, and stored evidence as parsed.
- MusicBrainzClient.Client.DelayFor: does not model the overflow of a 64-bit shift for very large retry counts.
- DrainLoops.Library.RunWithProgress: holds the clock fixed; what providers answer and which statements fail are inputs.
- DrainLoops.Library.ApplyRelease: title, year, tracks and credits appear as whether they differ or are rewritten.
- ArtistConsolidation.Tables.ConsolidateAtNextSequence: takes the evidence map as a parameter; ArtistEvidence builds it.
- ArtistConsolidation.Tables.Merge: leaves out the alias rows it adds.
- MusicBrainzClient.Client.Begin: has no answer from a fresh cache entry; for the shared state that is a call that ends before its first request (Begin, then Fail).
- ScrobbleLease.Sessions.ClaimPending: takes the listing of the select (duration filter, order, limit) as input.
- IncrementalScan.Library.Scan: leaves out artwork handling inside the scan.
- IncrementalScan.Library.UpsertTrack: leaves out album, artist and credit rows and resolved columns.
- IncrementalScan.StampsTellChanges: speaks of presence and raw metadata, not of album, artist and art columns.
- IncrementalScan.CachedScanRefinesPlainScan: leaves out art, albums and artists, and columns that the resolver rewrites after the upsert.
- Store failures in Configure and in NewManager: they leave the manager unchanged or without a source.
- HTTP handlers, SSE framing, OpenAPI glue, configuration, logging and the admin interface: no state of their own.
- Provider payloads, tag reading, image files, title normalisation, path handling: uninterpreted values or arbitrary outcomes.
- The rewriting of credits and recordings in applyMusicBrainzRelease, structuralEditionConsensus and consensusIdentity: rewriting of single rows, and choices that are only advisory.
- SetArtistArtAtNextSequence and the artist metadata writer: one conditional row update each; DeltaSync has them as AtNextWrite.
- The artist artwork stage: an attached image can stay eligible, so it is not claimed to drain.
- Deletion of Last.fm sessions by retention, and the now-playing relay.
- Credentials, pairing, random ids, party queue, mixes and radio.
