# Tournament of Jazz bracket core, modelled in Dafny

This project models the core logic of the "Tournament of Jazz" bracket game. In
the game, 64 artists in four regions (vocalists, bandleaders, composers,
soloists) play a six-round single-elimination bracket with 63 matchups.
Participants pick a winner for every matchup. An administrator keeps the
official (master) bracket and reveals it round by round. Each correct pick in
round r scores 2^(r-1) points, so every round is worth 32 and a perfect
bracket 192.

Modules, one per source file:

- `Constants` (`src/lib/constants.ts`): regions, points and games per round,
  totals and round-1 seed pairs. The tables are proved to be powers of two,
  to be worth 32 per round, and to use each seed once.
- `MatchupKeys` (`matchupKey`/`parseMatchupKey`): a matchup key is the
  structural pair `Key(round, idx)`. Its string form `"r-i"` is proved to
  round-trip through the parser and to be injective.
- `BracketUtils` (`src/lib/bracket-utils.ts`): the bracket topology (parents,
  child, position, regions) and the artists of a matchup. It also holds:
  - the downstream cascade (`CascadePicks`, a loop, specified by the pure
    `Cascaded`);
  - the enumeration of all 63 keys;
  - pick counting, including the per-region count loop.
- `Scoring` (`src/lib/scoring.ts`): the score of one submission, written as
  loops, proved equal to a specification built from per-round hit sets. Also
  a stable descending sort and tie-aware ranking.
- `BracketBuilder` and `MasterBracketEditor`: the pick handlers of the
  participant builder and the admin editor, as classes holding the `picks`
  state. The editor also has its round tab counts and its region filter.
- `BracketViewer`: the status of each pick, the 63 resolved matchups, and
  their grouping into regions and cross-region rounds. The count of
  'correct' entries is proved to agree with the score.
- `RevealRoute` and `RevealControls`: the irreversible reveal endpoint and
  the admin panel's round states.
- `PhotoRoute`: the upload checks, the file-name slug, the extension and the
  storage path of an artist photo.
- `ShareButtons`: the download file name and the Open Graph image path.
- `CountdownTimer`: the days/hours/minutes/seconds breakdown.

Modelling decisions:

- JavaScript falsiness is kept where the code relies on it:
  - an empty previous winner id makes the cascade a no-op;
  - the viewer treats an empty winner id as no pick;
  - empty tournament and artist ids count as missing.
- The code disagrees with one of its own comments, and the model follows
  the code. `handlePickWinner` (`BracketBuilder.tsx:156-160`) carries the
  old commentary over on every re-pick. The comment says this happens only
  "if winner unchanged", but that case already returned at line 143.
  `PickWinnerRecordsWinner` states the behaviour as written.
- The viewer/score agreement (`CorrectCountMatchesScore`) needs every master
  winner id to be non-empty. Scoring compares ids with `===`, so an empty
  participant id would match an empty master id. The viewer shows such a
  pick as pending.

## Model

| member | source | states |
|---|---|---|
| Constants.GamesPerRoundIsPowerOfTwo | src/lib/constants.ts:37-44 | games in round r are 2^(6-r) for r in 1..6 |
| Constants.PointsPerRoundIsPowerOfTwo | src/lib/constants.ts:28-35 | points in round r are 2^(r-1) for r in 1..6 |
| Constants.RoundTablesDomain | src/lib/constants.ts:28-44 | both tables are defined exactly on rounds 1..6 |
| Constants.EachRoundWorth32 | src/lib/constants.ts:28-46 | points × games is 32 in every round |
| Constants.TableTotals | src/lib/constants.ts:28-48 | the per-round maxima sum to MAX_POSSIBLE_SCORE (192) and the games to TOTAL_PICKS (63) |
| Constants.SeedPairsSumTo17 | src/lib/constants.ts:52-61 | there are 8 seed pairs and each pair sums to 17 |
| Constants.SeedsCovered | src/lib/constants.ts:52-61 | the pairs use every seed 1..16 and no other value |
| Constants.SeedsDistinct | src/lib/constants.ts:52-61 | no seed appears in two places of the pairs |
| Constants.RegionsDistinct | src/lib/constants.ts:3 | four distinct regions |
| Constants.RegionIndex | src/lib/constants.ts:3 | the index of a region in REGIONS, which holds that region |
| MatchupKeys.ParseKeyString | src/lib/bracket-utils.ts:8-18 | parsing the string of a key gives the key back |
| MatchupKeys.KeyStringInjective | src/lib/bracket-utils.ts:8-10 | two keys have the same string iff they are equal |
| MatchupKeys.ParseKey | src/lib/bracket-utils.ts:15-18 | a parsed string is digits, one dash, digits |
| MatchupKeys.KeyString | src/lib/bracket-utils.ts:8-10 | `matchupKey`, "round-index"; ParseKeyString and KeyStringInjective state that it round-trips and is injective |
| BracketUtils.MatchupsInRound | src/lib/bracket-utils.ts:24-26 | the matchup count of a round is its GAMES_PER_ROUND entry |
| BracketUtils.RoundSizes | src/lib/bracket-utils.ts:20-26 | 32, 16, 8, 4, 2, 1 matchups, 63 in all |
| BracketUtils.RegionBlocks | src/lib/bracket-utils.ts:32-35 | round-1 index i is in region i / 8; two indices share a region iff they share a block of 8 |
| BracketUtils.RegionForMatchup | src/lib/bracket-utils.ts:32-35 | REGIONS[i / 8], none past the table; RegionBlocks states which indices share a region |
| BracketUtils.GetRegionForMatchup | src/lib/bracket-utils.ts:251-259 | the doubling loop returns the region of the round-1 descendant |
| BracketUtils.RegionOfValidKey | src/lib/bracket-utils.ts:251-259 | null exactly for rounds 5 and 6; otherwise region idx / 2^(4-round) |
| BracketUtils.RegionOfParents | src/lib/bracket-utils.ts:79-88 | a matchup in rounds 2..4 has the region of both its parents |
| BracketUtils.Find | src/lib/bracket-utils.ts:47-48 | `find`: the result is the first artist of the list that satisfies the predicate (none before it does); none found iff none does |
| BracketUtils.FindReturnsEarliest | src/lib/bracket-utils.ts:47-48 | whatever matches later, find returns the artist at the earliest matching position |
| BracketUtils.FindIndex | src/lib/bracket-utils.ts:47-48 | the first index satisfying the predicate, or none iff none does |
| BracketUtils.PickedArtist | src/lib/bracket-utils.ts:131-135 | the first artist in the list whose id is the pick's winner, or none iff no pick or no such artist |
| BracketUtils.GetRound1Artists | src/lib/bracket-utils.ts:41-50 | each side is the first artist in the list with the region and that side's seed, or none iff no such artist |
| BracketUtils.GetRegionRound1Matchups | src/lib/bracket-utils.ts:56-70 | eight valid round-1 keys 8·region+i of that region, with their seeded artists |
| BracketUtils.GetParentMatchupKeys | src/lib/bracket-utils.ts:79-88 | (r-1, 2i) and (r-1, 2i+1), none in round 1; ParentChildDuality and NeighboursValid state their properties |
| BracketUtils.GetChildMatchupKey | src/lib/bracket-utils.ts:94-100 | (r+1, i / 2), none in round 6; ChildParentDuality states that it inverts the parents |
| BracketUtils.GetPositionInChild | src/lib/bracket-utils.ts:106-108 | A for even indices, B for odd; ParentChildDuality and ChildParentDuality place each parent on its side |
| BracketUtils.ParentChildDuality | src/lib/bracket-utils.ts:79-108 | no parents in round 1; both parents of (r, i) have (r, i) as their child, in positions A and B |
| BracketUtils.ChildParentDuality | src/lib/bracket-utils.ts:94-108 | no child in round 6; a matchup is the parent of its child on the side its parity gives |
| BracketUtils.NeighboursValid | src/lib/bracket-utils.ts:79-100 | parents and child of a valid key are valid |
| BracketUtils.GetMatchupArtists | src/lib/bracket-utils.ts:115-138 | round 1 uses the seeds; later rounds show, per side, the first artist whose id is that parent's winner, none iff the parent is unpicked or the id unknown |
| BracketUtils.Round1ListingAgrees | src/lib/bracket-utils.ts:56-70 | the region listing and the matchup lookup agree on round-1 artists |
| BracketUtils.Cascaded | src/lib/bracket-utils.ts:145-176 | the cascade only removes picks, only on the descendant chain, and never the changed key |
| BracketUtils.CascadePicks | src/lib/bracket-utils.ts:145-176 | no-op for a falsy previous winner; otherwise clears exactly the chain picks holding that winner, in round order, at most 6 - round of them |
| BracketUtils.AllKeysForRound | src/lib/bracket-utils.ts:181-184 | the keys (round, 0..n-1), all valid |
| BracketUtils.AllMatchupKeys | src/lib/bracket-utils.ts:189-195 | 63 keys, in strictly increasing (round, index) order, containing exactly the valid keys |
| BracketUtils.OrdinalBijection | src/lib/bracket-utils.ts:189-195 | position in the key list and key are inverse bijections that preserve order |
| BracketUtils.ValidKeysCard | src/lib/bracket-utils.ts:189-195 | there are exactly 63 valid keys |
| BracketUtils.CountPicks | src/lib/bracket-utils.ts:200-202 | the number of keys; ValidPicksBounded bounds it by 63 for valid keys |
| BracketUtils.IsBracketComplete | src/lib/bracket-utils.ts:207-209 | 63 picks; CompleteIffEveryMatchupPicked and ValidPicksBounded state what that means |
| BracketUtils.ValidPicksBounded | src/lib/bracket-utils.ts:200-209 | with valid keys the count is at most 63, and 63 exactly when every matchup is picked |
| BracketUtils.CompleteIffEveryMatchupPicked | src/lib/bracket-utils.ts:200-209 | with valid keys, 63 picks means every matchup is picked |
| BracketUtils.CountPresent | src/lib/bracket-utils.ts:220-229 | a counting loop's result: the picks within a block of keys, at most its size |
| BracketUtils.CountBlock | src/lib/bracket-utils.ts:220-229 | one counting loop returns CountPresent of its block of keys |
| BracketUtils.RegionKeysAreTheRegion | src/lib/bracket-utils.ts:213-231 | the 15 counted keys are exactly the valid keys of that region |
| BracketUtils.RegionKeysCard | src/lib/bracket-utils.ts:211-214 | a region has 15 matchups (8 + 4 + 2 + 1), all valid, in rounds 1..4 |
| BracketUtils.RegionKeysCount | src/lib/bracket-utils.ts:215-231 | the region count is the sum of the four block counts |
| BracketUtils.GetRegionPickCount | src/lib/bracket-utils.ts:215-231 | the loops count the picks on the region's keys, at most 15 |
| BracketUtils.GetRegionWinner | src/lib/bracket-utils.ts:237-245 | the first artist whose id is the winner picked in (4, region), or none |
| BracketUtils.RegionWinnerEntersFinalFour | src/lib/bracket-utils.ts:237-245 | the region winner is the matching side of Final Four matchup region / 2 |
| Scoring.RoundPoints | src/lib/scoring.ts:23 | a round's points are its POINTS_PER_ROUND entry, which is 2^(r-1) |
| Scoring.ScoreOf | src/lib/scoring.ts:12-50 | by-round maps defined on 1..6: the round score and the round maximum |
| Scoring.RoundScoresContents | src/lib/scoring.ts:17-47 | `byRound` holds rounds 1..6, each with its score |
| Scoring.RoundMaximaContents | src/lib/scoring.ts:17-47 | `maxPossibleByRound` holds rounds 1..6, each with its maximum |
| Scoring.ScoreSubmission | src/lib/scoring.ts:12-50 | the loop computes exactly the specified score |
| Scoring.ScoreRound | src/lib/scoring.ts:34-45 | the inner loop adds points once per master key of the round that the participant matched |
| Scoring.MaximumIs192 | src/lib/scoring.ts:22-27 | maxPossible is 192 and each round's maximum 32, whatever the picks and cutoff |
| Scoring.MaximumUpToIs32PerRound | src/lib/scoring.ts:22-27 | the maxima of the first n rounds sum to 32·n |
| Scoring.UnrevealedRoundsScoreZero | src/lib/scoring.ts:29-32 | rounds beyond the cutoff score 0; cutoff 0 gives total 0 |
| Scoring.TotalIsSumOfRounds | src/lib/scoring.ts:45-49 | total is the sum of byRound[1..6] |
| Scoring.RoundScoreAtMost32 | src/lib/scoring.ts:34-45 | a round whose master holds at most as many keys as the round has matchups scores at most 32 |
| Scoring.HitsAtMostRoundSize | src/lib/scoring.ts:35-42 | a round has no more hits than master keys of that round |
| Scoring.TotalAtMost32PerRound | src/lib/scoring.ts:34-47 | when no master round holds more keys than its matchups, the first n rounds score at most 32·n |
| Scoring.ScoreAtMostMaximum | src/lib/scoring.ts:12-50 | when no master round holds more keys than its matchups, no round scores over 32 and the total never exceeds 192 |
| Scoring.ValidMasterRoundsWithinSize | src/lib/scoring.ts:34-47 | a master with only valid keys meets that per-round premise |
| Scoring.ValidMasterScoreAtMostMaximum | src/lib/scoring.ts:12-50 | a master with only valid keys bounds every total by 192 |
| Scoring.OversizedRoundExceeds32 | src/lib/scoring.ts:34-45 | an example showing the premise is needed: 33 round-1 master keys, all matched, score 33 |
| Scoring.TotalMonotoneInReveal | src/lib/scoring.ts:29-47 | the total never decreases as the cutoff grows |
| Scoring.ExtraPicksIgnored | src/lib/scoring.ts:35-42 | picks on keys absent from the master never change the score |
| Scoring.SameRoundScores | src/lib/scoring.ts:34-47 | equal hit sets give equal totals |
| Scoring.OneCorrectFirstRoundPick | src/lib/scoring.ts:34-45 | an example: one correct round-1 pick scores 1 |
| Scoring.ScoreAll | src/lib/scoring.ts:66-71 | one scored entry per submission, in order |
| Scoring.ScoreEntry | src/lib/scoring.ts:66-71 | one submission's entry: its id, name and token with ScoreOf of its picks; ScoreAll and ScoreEach carry it |
| Scoring.ScoreEach | src/lib/scoring.ts:66-71 | the mapping loop gives the scored entries |
| Scoring.InsertDesc | src/lib/scoring.ts:74 | one insertion step of the stable sort, one entry longer; InsertDescPermutes, InsertDescSorted and InsertDescStable state what it keeps |
| Scoring.InsertDescPermutes | src/lib/scoring.ts:74 | insertion adds exactly the inserted entry (a permutation) |
| Scoring.SortDesc | src/lib/scoring.ts:74 | the sort is a permutation |
| Scoring.InsertDescSorted | src/lib/scoring.ts:74 | insertion keeps the list sorted descending |
| Scoring.InsertDescStable | src/lib/scoring.ts:74 | insertion keeps the order of equal totals |
| Scoring.SortDescProperties | src/lib/scoring.ts:74 | the sort is descending by total and stable |
| Scoring.AssignRanks | src/lib/scoring.ts:77-83 | each entry's rank is 1 + the number of entries with a strictly higher total |
| Scoring.ScoreAndRankSubmissions | src/lib/scoring.ts:55-84 | ranked entries are the stably sorted scores, each ranked by the entries above it |
| Scoring.RankProperties | src/lib/scoring.ts:77-83 | the top rank is 1, ranks never decrease down the list, ties share a rank, and rank ≤ position + 1 |
| Scoring.CountAbovePrefix | src/lib/scoring.ts:77-83 | on a sorted list, the count above a total is the length of the prefix beating it |
| Scoring.TiesShareRank | src/lib/scoring.ts:77-83 | an example: totals 50, 50, 40 get ranks 1, 1, 3 |
| BracketBuilder.PreviousWinner | src/components/bracket/BracketBuilder.tsx:140-148 | the winner already recorded at a key, or none |
| BracketBuilder.PickWinner | src/components/bracket/BracketBuilder.tsx:137-166 | the pick handler's new picks; the PickWinner* lemmas below state its effect |
| BracketBuilder.CommentaryChanged | src/components/bracket/BracketBuilder.tsx:168-180 | the commentary handler's new picks; CommentaryChangeOnlyTouchesCommentary states its effect |
| BracketBuilder.DropPick | src/components/bracket/BracketBuilder.tsx:253-279 | the pick a drop makes, if any; DropRule states when |
| BracketBuilder.PickSameWinnerIsNoop | src/components/bracket/BracketBuilder.tsx:142-143 | re-picking the recorded winner changes nothing |
| BracketBuilder.PickWinnerRecordsWinner | src/components/bracket/BracketBuilder.tsx:156-160 | the key holds the new winner and the commentary it had |
| BracketBuilder.PickWinnerOtherKeys | src/components/bracket/BracketBuilder.tsx:145-154 | other keys are kept or removed by the cascade (on the chain, holding the old non-empty winner); nothing is added |
| BracketBuilder.PickWinnerOnEmptyKey | src/components/bracket/BracketBuilder.tsx:137-166 | a first pick only adds that pick |
| BracketBuilder.PickWinnerKeepsKeysValid | src/components/bracket/BracketBuilder.tsx:137-166 | picking on valid keys keeps every key valid |
| BracketBuilder.CommentaryChangeOnlyTouchesCommentary | src/components/bracket/BracketBuilder.tsx:168-180 | no pick, no change; otherwise only that pick's commentary changes |
| BracketBuilder.DropRule | src/components/bracket/BracketBuilder.tsx:253-279 | a drop picks the dragged artist in its own matchup iff the target is that matchup or its child; missing data does nothing |
| BracketBuilder.BracketBuilderState.constructor | src/components/bracket/BracketBuilder.tsx:57 | the builder starts with no picks |
| BracketBuilder.BracketBuilderState.HandlePickWinner | src/components/bracket/BracketBuilder.tsx:137-166 | new state is the specified pick |
| BracketBuilder.BracketBuilderState.HandleCommentaryChange | src/components/bracket/BracketBuilder.tsx:168-180 | new state is the specified commentary change |
| BracketBuilder.BracketBuilderState.HandleDragEnd | src/components/bracket/BracketBuilder.tsx:253-279 | the drop rule's pick, or no change |
| MasterBracketEditor.PreviousWinner | src/components/admin/MasterBracketEditor.tsx:34-35 | the official winner already recorded, or none |
| MasterBracketEditor.MasterPick | src/components/admin/MasterBracketEditor.tsx:32-51 | the official pick handler's new picks; MasterRepickIsNoop and MasterPickEffect state its effect |
| MasterBracketEditor.MasterRepickIsNoop | src/components/admin/MasterBracketEditor.tsx:37 | the same pick changes nothing |
| MasterBracketEditor.MasterPickEffect | src/components/admin/MasterBracketEditor.tsx:32-51 | the key gets the winner (with no commentary on a change); another key survives iff the cascade did not clear it, and survivors are unchanged |
| MasterBracketEditor.RoundPickCount | src/components/admin/MasterBracketEditor.tsx:149-152 | a tab counts the picks among the round's keys, at most the round size |
| MasterBracketEditor.RoundTabsAddUp | src/components/admin/MasterBracketEditor.tsx:148-153 | with valid keys the six tab counts add up to the pick count |
| MasterBracketEditor.FilteredIndices | src/components/admin/MasterBracketEditor.tsx:119-127 | the indices the region filter shows; FilteredMembers, FilteredSorted and the lemmas below state which |
| MasterBracketEditor.FilteredMembers | src/components/admin/MasterBracketEditor.tsx:120-127 | the filter keeps exactly the shown indices of the round |
| MasterBracketEditor.FilteredSorted | src/components/admin/MasterBracketEditor.tsx:120-127 | the kept indices stay in increasing order, each once |
| MasterBracketEditor.MatchupIndices | src/components/admin/MasterBracketEditor.tsx:119-127 | `matchupIndices`: the filter over all of the active round; the three lemmas below state which indices it lists |
| MasterBracketEditor.AllRegionsListsEverything | src/components/admin/MasterBracketEditor.tsx:119-127 | 'all', or rounds 5 and 6, list every matchup of the round |
| MasterBracketEditor.OneRegionListsItsRegion | src/components/admin/MasterBracketEditor.tsx:119-127 | one region in rounds 1..4 lists exactly the matchups whose region it is |
| MasterBracketEditor.OneRegionListsItsQuarter | src/components/admin/MasterBracketEditor.tsx:119-127 | those matchups are the region's contiguous quarter of the round, in order, a quarter of the round's size |
| MasterBracketEditor.MasterBracketEditorState.constructor | src/components/admin/MasterBracketEditor.tsx:23-25 | starts from the existing picks or none |
| MasterBracketEditor.MasterBracketEditorState.PickCount | src/components/admin/MasterBracketEditor.tsx:30 | the number of picks; with valid keys at most 63, and 63 exactly when every matchup is picked |
| MasterBracketEditor.MasterBracketEditorState.HandlePick | src/components/admin/MasterBracketEditor.tsx:32-51 | new state is the specified official pick |
| BracketViewer.GetPickStatus | src/components/bracket/BracketViewer.tsx:44-56 | a pick's status; PickStatusCases states each case |
| BracketViewer.PickStatusCases | src/components/bracket/BracketViewer.tsx:44-56 | pending without a master, past the cutoff, without a master pick or a winner; correct iff ids are equal; incorrect iff they differ |
| BracketViewer.WinnerArtist | src/components/bracket/BracketViewer.tsx:75-77 | the first artist with a non-empty winner id, or none |
| BracketViewer.ResolvedAll | src/components/bracket/BracketViewer.tsx:61-97 | one entry per matchup, 63 in all |
| BracketViewer.ResolveMatchup | src/components/bracket/BracketViewer.tsx:70-93 | one loop iteration builds that key's entry |
| BracketViewer.ResolveMatchups | src/components/bracket/BracketViewer.tsx:61-97 | the loops give the 63 entries in key order; the region is null exactly in rounds 5 and 6 |
| BracketViewer.ResolvedAllShape | src/components/bracket/BracketViewer.tsx:61-97 | entry j has the j-th valid key, with no region exactly in rounds 5 and 6 |
| BracketViewer.ResolvedKeysDistinct | src/components/bracket/BracketViewer.tsx:61-97 | no key appears twice |
| BracketViewer.Filter | src/components/bracket/BracketViewer.tsx:338-348 | a filter keeps only selected entries of the list, and is no longer than it |
| BracketViewer.FilterKeepsSelected | src/components/bracket/BracketViewer.tsx:338-348 | every selected entry of the list is kept |
| BracketViewer.FilterLast | src/components/bracket/BracketViewer.tsx:338-348 | the last entry comes after the others' survivors exactly when it is selected |
| BracketViewer.FilterAppend | src/components/bracket/BracketViewer.tsx:338-348 | filtering a concatenation is the concatenation of the filtered parts, so list order is kept |
| BracketViewer.FilterCount | src/components/bracket/BracketViewer.tsx:338-348 | with distinct keys, the filtered list is as long as its set of keys |
| BracketViewer.GroupByRegion | src/components/bracket/BracketViewer.tsx:331-344 | each region's list is the ordered filter of its rounds 1..4 entries |
| BracketViewer.RegionGroupKeysInRegion | src/components/bracket/BracketViewer.tsx:331-344 | a region group holds only that region's keys |
| BracketViewer.RegionKeysInRegionGroup | src/components/bracket/BracketViewer.tsx:331-344 | every key of the region is in its group |
| BracketViewer.RegionGroupsHold15 | src/components/bracket/BracketViewer.tsx:331-344 | each region group holds 15 matchups |
| BracketViewer.CrossRegionMatchups | src/components/bracket/BracketViewer.tsx:347-350 | the entries of rounds 5 and up, in order; Filter's lemmas and CrossRegionHolds3 state its contents |
| BracketViewer.CrossRegionHolds3 | src/components/bracket/BracketViewer.tsx:347-350 | the cross-region list holds the 3 matchups of rounds 5 and 6 |
| BracketViewer.CorrectCountMatchesScore | src/components/bracket/BracketViewer.tsx:44-56 | in a revealed round, the count of 'correct' entries times the round's points is the round score |
| RevealRoute.StatusCode | src/app/api/admin/reveal/route.ts:6-51 | 401 for no auth, 404 on the no-bracket branch as written, 400 for the other refusals |
| RevealRoute.Decide | src/app/api/admin/reveal/route.ts:5-51 | the route's checks in order; DecideCases states what is accepted and refused |
| RevealRoute.Step | src/app/api/admin/reveal/route.ts:43-61 | the rows after one request; StepIsMonotone and RunIsMonotone state how they change |
| RevealRoute.DecideCases | src/app/api/admin/reveal/route.ts:14-51 | a missing id is refused before any read; a bad round is refused; a round not above the current one is refused; accepted iff all checks pass |
| RevealRoute.StepIsMonotone | src/app/api/admin/reveal/route.ts:43-61 | one request keeps values in 0..6 and only raises the requested tournament's value |
| RevealRoute.RunIsMonotone | src/app/api/admin/reveal/route.ts:18-61 | across any sequence of requests the values stay in 0..6 and never decrease |
| RevealRoute.SkippingRoundsIsAllowed | src/app/api/admin/reveal/route.ts:18-61 | an example: revealing round 6 directly after 0 is accepted |
| RevealRoute.RevealStore.constructor | src/app/api/admin/reveal/route.ts:26-30 | the store holds the given rows |
| RevealRoute.RevealStore.Reveal | src/app/api/admin/reveal/route.ts:5-68 | new rows are the specified step; success iff the decision accepts; the error is the decision's |
| RevealControls.GetRoundState | src/components/admin/RevealControls.tsx:96-100 | the state of a round button; RoundStateCases states each case |
| RevealControls.RoundStateCases | src/components/admin/RevealControls.tsx:96-100 | revealed iff round ≤ cutoff; next iff round = cutoff + 1; future otherwise |
| RevealControls.NextRounds | src/components/admin/RevealControls.tsx:195-197 | the buttons of 1..6 in state 'next': {cutoff + 1} for cutoffs 0..5, none for any other cutoff |
| RevealControls.ExactlyOneNext | src/components/admin/RevealControls.tsx:195-197 | for cutoff 0..5 exactly round cutoff + 1 is next; for 6 none is |
| RevealControls.Progress | src/components/admin/RevealControls.tsx:292-294 | "Tournament complete!" iff the cutoff is 6, else the next round |
| RevealControls.ProgressNamesTheNextRound | src/components/admin/RevealControls.tsx:195-197 | the label names the one 'next' round, or says complete when there is none |
| PhotoRoute.StatusCode | src/app/api/admin/artists/photo/route.ts:6-50 | 401, 404 and 400 for the respective refusals |
| PhotoRoute.ValidateUpload | src/app/api/admin/artists/photo/route.ts:5-37 | the checks before the artist lookup; ValidationCases states what they accept |
| PhotoRoute.ValidationCases | src/app/api/admin/artists/photo/route.ts:15-37 | missing fields refused; accepted iff present, whitelisted type and at most 5 MiB; exactly 5 MiB passes and one byte more fails |
| PhotoRoute.LowerAll | src/app/api/admin/artists/photo/route.ts:54 | ASCII lowering, character by character |
| PhotoRoute.CollapseRuns | src/app/api/admin/artists/photo/route.ts:55 | each run of other characters becomes one '-'; the three CollapseRuns lemmas state the result |
| PhotoRoute.CollapseRunsKeeps | src/app/api/admin/artists/photo/route.ts:55 | collapsing runs keeps the letters and digits, in order |
| PhotoRoute.CollapseRunsAlphabet | src/app/api/admin/artists/photo/route.ts:55 | the collapsed string is over `[a-z0-9-]` and starts with "-" only when the input starts with a dropped character |
| PhotoRoute.CollapseRunsNoDoubleDash | src/app/api/admin/artists/photo/route.ts:55 | every run becomes a single "-": the collapsed string never has "--" |
| PhotoRoute.TrimDashes | src/app/api/admin/artists/photo/route.ts:56 | drops one leading and one trailing '-'; never longer than its input, and TrimKeeps states that only dashes go |
| PhotoRoute.Slug | src/app/api/admin/artists/photo/route.ts:52-56 | lower, collapse runs, trim; SlugShape and SlugEmptyIffNothingKept state the result |
| PhotoRoute.TrimKeeps | src/app/api/admin/artists/photo/route.ts:56 | trimming removes only dashes |
| PhotoRoute.SlugShape | src/app/api/admin/artists/photo/route.ts:53-56 | the slug is over `[a-z0-9-]`, keeps the lowered letters and digits in order, has no "--", and has no leading or trailing '-' |
| PhotoRoute.SlugEmptyIffNothingKept | src/app/api/admin/artists/photo/route.ts:53-56 | the slug is empty iff the name has no ASCII letter or digit |
| PhotoRoute.Extension | src/app/api/admin/artists/photo/route.ts:58 | png for image/png, webp for image/webp, jpg otherwise |
| PhotoRoute.StoragePath | src/app/api/admin/artists/photo/route.ts:59 | the path is the slug, a '.', then the extension, and the slug part holds no '.' |
| PhotoRoute.StoragePathDeterminesParts | src/app/api/admin/artists/photo/route.ts:52-59 | equal paths have equal slugs and equal extensions: the path splits back at its first '.' |
| PhotoRoute.UploadPath | src/app/api/admin/artists/photo/route.ts:6-59 | a path iff the checks pass and the artist exists; a check's error when a check fails; ArtistNotFound (404) when the checks pass and the artist is unknown |
| PhotoRoute.AcceptedPathExtension | src/app/api/admin/artists/photo/route.ts:23-59 | an accepted path is slug + "." + jpg, png or webp matching the type |
| ShareButtons.Sanitize | src/components/sharing/ShareButtons.tsx:46 | the sanitised name has the display name's length in UTF-16 units |
| ShareButtons.SanitizeUnits | src/components/sharing/ShareButtons.tsx:46 | ASCII letters and digits stay; every other unit becomes '_' |
| ShareButtons.SanitizeIdempotent | src/components/sharing/ShareButtons.tsx:46 | sanitising twice equals once |
| ShareButtons.DownloadName | src/components/sharing/ShareButtons.tsx:46 | the sanitised name then "_bracket.png"; DownloadNameShape states its contents |
| ShareButtons.DownloadNameShape | src/components/sharing/ShareButtons.tsx:46 | the download name is the sanitised name plus "_bracket.png", over `[A-Za-z0-9_.]` |
| ShareButtons.OgImagePath | src/components/sharing/ShareButtons.tsx:32-36 | the image path is 16 units longer than the bracket URL |
| ShareButtons.OgImagePathShape | src/components/sharing/ShareButtons.tsx:32-36 | the image path is the bracket URL followed by "/opengraph-image" |
| CountdownTimer.CalcTimeLeft | src/components/ui/CountdownTimer.tsx:17-26 | none iff diff ≤ 0; days = diff div 86 400 000; hours, minutes and seconds in range |
| CountdownTimer.BreakdownIsExact | src/components/ui/CountdownTimer.tsx:20-25 | days·86400 + hours·3600 + minutes·60 + seconds = diff div 1000 |
| CountdownTimer.BreakdownExamples | src/components/ui/CountdownTimer.tsx:19-25 | examples: 1 ms shows zeros; one day and one second shows 1 d 0 h 0 m 1 s; 0 gives none |

## Left out

- React rendering, hooks, modals, dnd-kit sensors and overlays, layout and styling: they only display the modelled values.
- Supabase reads and writes, and the HTTP plumbing around them. The stores become parameters: the master-bracket rows of the reveal route, and the artists table of the photo route. Their 500 error paths (failed fetch, failed upload, failed update) are not modelled.
- The photo route after the storage path: the upload, the public URL, the `photo_url` update and the `DELETE` handler are store calls.
- Authentication (`isAdminAuthenticated`) is a boolean parameter.
- Time: `calcTimeLeft` takes the integer `diff`, not `Date.now`. The `setInterval` refresh is not modelled.
- Floating point: progress percentages are not modelled. The countdown's `Math.floor` of float quotients taken modulo 24 or 60 is integer division, which gives the same value for a positive integer `diff`.
- JavaScript's parsing of malformed input is not modelled: `Number` on a bad key, `parseInt` in scoring, and a non-integer `round` in the reveal body. Keys are structural `Key(round, idx)` values. Drag data carries keys, not strings.
- `toLowerCase` is ASCII lowering. Unicode case mapping that turns a non-ASCII letter into an ASCII one (the Kelvin sign, say) is not modelled.
- The window origin prefix, `fetch`, blobs and anchors in the share buttons; only the file name and path strings are modelled.
- RevealRoute.Decide: a tournament with no master-bracket row takes the `!bracket` branch as written (404, `route.ts:36-41`). The lookup at `route.ts:26-30` ends in `.single()`, which reports zero matching rows as a fetch error, so the deployed route answers that case with the 500 at `route.ts:32-34`. The store's error reporting is not modelled.
- Concurrent reveals. The database serialises them; the model applies requests one at a time.
- Scoring.SortDesc: `Array.prototype.sort` sorts in place. The model is a pure stable insertion sort on a sequence with the same result. In-place update and the comparator call sequence are not modelled.
- Scoring.ScoreRound: iterates over the master keys as a set, in no particular order. The source iterates in object insertion order; the sum does not depend on it.
- BracketViewer.CorrectCountMatchesScore: requires every master winner id to be non-empty and every master key to be valid. Otherwise scoring's `===` and the viewer's falsy test can disagree.
