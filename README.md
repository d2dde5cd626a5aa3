# Poker-night scorekeeper: settlement engine, bounty ledger and player selection

This project is a Dafny model of the core of a small browser app that keeps
score for a tournament night. It models two pages of the app.

The game page (`game.js`) does four things:

- it creates a game from a form, with defaults for the fields left empty;
- it picks the players who join the game, from a list of regulars plus custom names;
- it adds players one at a time;
- during play, it keeps a bounty ledger: each record is a kill, and the running bounty pool is capped at the game's `maxBounty`.

The settlement page (`settlement.js`) does three things:

- it reads the operator's inputs, with their defaults;
- it lets scores be edited;
- it computes the settlement. It tallies kills from the ledger and works out the prize pool, the bounty pool, the meal share and the remaining pools. It ranks the players by score with a stable sort. It splits the remaining prize pool over the top places by the reward ratios, and the meal cost still owed over the bottom places by the penalty ratios. Then it derives each player's money figures.

Modules:

| file | module | models |
|---|---|---|
| `js_text.dfy` | `JsText` | the JavaScript library behaviour the core relies on: `trim`, `split` on one character, `parseInt` with no radix (white space, sign, `0x` prefix, leading digits, `NaN`), the `x \|\| d` default, `Math.round(a / b)` |
| `records.dfy` | `Records` | the stored games, players and bounty records, and the per-game filter both pages apply |
| `ratios.dfy` | `Ratios` | `parseRatios` and `calculateDistribution` |
| `ranking.dfy` | `Ranking` | the stable sort by descending score |
| `settlement.dfy` | `Settlement` | `calculateSettlement`, and the settlement page's state (`SettlementPage`) with `loadSettlementInputs`, `updatePlayerScore` and `startSettlement` |
| `ledger.dfy` | `Bounties` | `confirmBounty` and `deleteBountyRecord` on the ledger |
| `selection.dfy` | `Selection` | the two selection lists, their toggles, `addCustomPlayer`, and the names `confirmPlayerSelection` takes |
| `game_page.dfy` | `GamePage` | `createGame`'s configuration, `doAddPlayer`'s record, the `updateGameInfo` thresholds, and the game page's state (`GamePage`) |

Pure code is modelled as functions with lemmas about them. The two pages' module-level variables are the fields of a class, one per page, and the page functions that change them are methods. Each method's `modifies` clause and `ensures` say what the new state is. The kill tallies (one `forEach` over the ledger that builds both) and the player additions (`forEach` over the selected names) are loops with invariants.

## Model

| member | source | states |
|---|---|---|
| JsText.TrimStart | settlement.js:381 | the white space at the start of the text is removed, so the result is no longer than the text; `TrimStartSuffix` and `TrimStartDropsSpaces` state exactly what is kept |
| JsText.TrimEnd | settlement.js:381 | the white space at the end of the text is removed, so the result is no longer than the text; `TrimEndPrefix` and `TrimEndDropsSpaces` state exactly what is kept |
| JsText.Trim | settlement.js:381 | `s.trim()` removes white space at both ends; its properties are stated by the four lemmas on `TrimStart` and `TrimEnd` and by `TrimFixesTrimmed` |
| JsText.TrimStartSuffix | settlement.js:381 | the start of `trim` keeps a suffix of the text that does not start with white space |
| JsText.TrimStartDropsSpaces | settlement.js:381 | everything the start of `trim` drops is white space |
| JsText.TrimEndPrefix | settlement.js:381 | the end of `trim` keeps a prefix that does not end with white space |
| JsText.TrimEndDropsSpaces | settlement.js:381 | everything the end of `trim` drops is white space |
| JsText.TrimFixesTrimmed | game.js:126 | `trim` is idempotent, and text with no white space at either end is left unchanged |
| JsText.Split | settlement.js:379 | `split` gives at least one piece, and no piece contains the separator |
| JsText.Join | settlement.js:379 | `pieces.join(sep)`, the inverse that `JoinSplit` proves for `split` |
| JsText.JoinSplit | settlement.js:379 | joining the pieces of `split` with the separator gives back the original text |
| JsText.SplitAppend | settlement.js:379 | the pieces of `s + sep + t` are the pieces of `s` followed by the pieces of `t` |
| JsText.OrDefault | game.js:200-206 | `x \|\| d` on a parsed number: `NaN` and 0 give `d`, any other number is kept; `OrDefaultNonZero` states it |
| JsText.OrDefaultNonZero | game.js:200-204 | `parseInt(x) \|\| d` with `d != 0` is never 0, and it gives `d` only for `NaN`, for 0, or for the value `d` itself |
| JsText.RoundDiv | settlement.js:372 | `Math.round(a / b)` is the integer nearest to `a / b`, with a half rounded up |
| JsText.RoundDivUnique | settlement.js:372 | that nearest integer is unique |
| JsText.ParseInt | settlement.js:381 | `parseInt(s)` with no radix: white space at the start is skipped and the rest is read by `ParseSigned`; `ParseIntDecimal` and `NumeralFacts` state what it gives for numerals |
| JsText.ParseSigned | settlement.js:381 | a leading `-` negates the number that follows, a leading `+` is skipped, and a sign with no digits after it gives `NaN` |
| JsText.ParseRadix | settlement.js:381 | a `0x` or `0X` prefix switches to base 16; otherwise the digits are read in base 10 |
| JsText.ParseDigits | settlement.js:381 | the longest run of digits at the start is the value; no digit at all gives `NaN` |
| JsText.DecimalValue | game.js:194 | the decimal numeral of `n` reads back as `n` |
| JsText.ParseIntDecimal | settlement.js:381 | `parseInt` reads the numeral of `n` back as `n`, and `-n` with a minus sign, whatever non-digit text follows |
| JsText.NumeralFacts | settlement.js:381 | a numeral parses to its number, `trim` leaves it unchanged, and it contains no non-digit |
| Records.OfGame | game.js:264 | the game's list holds only players of that game, all taken from the stored list, and every stored player of that game is in it |
| Records.OfGameAppend | settlement.js:78-89 | a player stored last joins the end of the game's list exactly when it belongs to that game |
| Ratios.SegmentValue | settlement.js:380-383 | a segment is trimmed and read with `parseInt`, and `NaN` becomes 0; `ParseRatiosSegment` states how it decides a segment's ratio |
| Ratios.SegmentValues | settlement.js:380-383 | one value per segment, in order; `SegmentValuesAppend` states that segments are read one by one |
| Ratios.Positives | settlement.js:384 | the filter keeps only positive numbers, so it is no longer than its input; `PositivesAppend`, `PositivesOfPositive` and `PositivesEmpty` state that it keeps order and what it drops |
| Ratios.ParseRatios | settlement.js:377-385 | every parsed ratio is positive, and there are at most as many ratios as segments |
| Ratios.SegmentValuesAppend | settlement.js:380-383 | segments are read one by one, so reading distributes over concatenation |
| Ratios.PositivesAppend | settlement.js:384 | the filter keeps order and distributes over concatenation |
| Ratios.PositivesOfPositive | settlement.js:384 | the filter drops nothing from a list of positive numbers |
| Ratios.PositivesEmpty | settlement.js:384 | the filter keeps nothing exactly when no number is positive |
| Ratios.ParseRatiosSegment | settlement.js:380-384 | a segment with no colon yields its trimmed, parsed value when that is positive, and nothing otherwise |
| Ratios.ParseRatiosAppend | settlement.js:377-385 | the ratios of `s:t` are those of `s` followed by those of `t`, so input order is kept |
| Ratios.ParseRatiosText | settlement.js:377-385 | writing positive ratios out with colons and parsing the text gives the same ratios back |
| Ratios.ParseRewardDefault | settlement.js:290 | "4:3:2:1" parses to [4, 3, 2, 1] |
| Ratios.ParsePenaltyDefault | settlement.js:291 | "2:3:5" parses to [2, 3, 5] |
| Ratios.ParseRatiosMixed | settlement.js:377-385 | " 4:0:-2:x: 3abc" parses to [4, 3]: segments are trimmed and read up to the first non-digit, and zero, negative and non-numeric segments are dropped |
| Ratios.SumPositive | settlement.js:370 | the sum of a non-empty list of positive ratios is positive |
| Ratios.Shares | settlement.js:371-373 | one share per ratio, in order; `DistributionNearest` states that each is the rounded quotient `pool * ratio / total` |
| Ratios.Distribution | settlement.js:365-374 | one share per positive ratio |
| Ratios.DistributionEmpty | settlement.js:366-369 | no share is given exactly when no ratio is positive |
| Ratios.DistributionNearest | settlement.js:370-373 | the k-th share is the integer nearest to `pool * ratio / sum`, where `ratio` is the k-th positive ratio and `sum` the sum of the positive ratios; a half is rounded up |
| Ratios.ShareWithinPool | settlement.js:371-373 | for a pool of at least 0, every share lies between 0 and the pool |
| Ratios.DistributionResidue | settlement.js:371-373 | the shares are not corrected for rounding: with n shares, their total lies within n/2 of the pool |
| Ratios.DistributionOfParsed | settlement.js:290-303 | parsed ratios each get one share, and there are no shares exactly when there are no ratios |
| Ratios.DistributionExact | settlement.js:365-374 | 1000 over 4:3:2:1 gives [400, 300, 200, 100] |
| Ratios.DistributionOfSevenHundredTwenty | settlement.js:365-374 | 720 over 4:3:2:1 gives [288, 216, 144, 72] |
| Ratios.DistributionResidueExample | settlement.js:371-373 | 100 over 1:1:1 gives [33, 33, 33], so a residue of 1 goes to nobody |
| Ratios.DistributionNone | settlement.js:366-369 | ratios [0, -3] give no shares |
| Ranking.Insert | settlement.js:285-287 | inserting one element lengthens the list by one; `InsertSorted` and `InsertPermutation` state where it goes |
| Ranking.Sort | settlement.js:285-287 | `sort((a, b) => b.currentScore - a.currentScore)` as a stable insertion sort, giving as many elements as it is given; `SortSorted`, `SortPermutation`, `SortStable` and `SortUnique` state that it is the stable descending order |
| Ranking.InsertSorted | settlement.js:285-287 | inserting into a list sorted by descending score keeps it sorted |
| Ranking.SortSorted | settlement.js:285-287 | the ranking is ordered by non-increasing score |
| Ranking.InsertPermutation | settlement.js:285-287 | insertion adds exactly the one element |
| Ranking.SortPermutation | settlement.js:285-287 | the ranking is a permutation of the input (same multiset) |
| Ranking.SortStable | settlement.js:285-287 | for every score, the players with that score keep their input order |
| Ranking.SortedUnique | settlement.js:285-287 | two sorted lists of the same length that agree on every score's players in order are equal |
| Ranking.SortUnique | settlement.js:285-287 | the stable order is the only ordering that is sorted, keeps equal scores in input order, and has the right length |
| Ranking.SortSum | settlement.js:280-287 | ranking changes no total taken over the players |
| Settlement.Count | settlement.js:225-237 | a name occurs at most as many times as the list is long |
| Settlement.Counts | settlement.js:227-237 | the tally object built over the ledger: each name that occurs, mapped to how often it occurs; `CountsAppend` states how one more record changes it |
| Settlement.Times | settlement.js:241-242 | `count[name] \|\| 0`: a name the tally never saw reads as 0; `TimesCounts` states that it gives the occurrence count |
| Settlement.TimesCounts | settlement.js:241-242 | looking a name up in a tally (`count[name] \|\| 0`) gives how often it occurs, including 0 for an absent name |
| Settlement.CountsAppend | settlement.js:228-236 | one more record increases exactly that name's tally by one |
| Settlement.TallyKills | settlement.js:225-237 | the one `forEach` over the ledger builds both tallies: for every name, the number of records naming it as victim and as killer |
| Settlement.EntrantOf | settlement.js:240-252 | one player with its tallies looked up: `bountyEarned` is 100 per kill, `killedTimes` and `killerTimes` the tallies (0 when absent), and the game's entry fee; `EntrantFigures` states it for every player |
| Settlement.Entrants | settlement.js:240-252 | `players.map(...)`: one entrant per player, in order |
| Settlement.EntrantFigures | settlement.js:240-252 | each player's `killedTimes` and `killerTimes` count the records naming them; `bountyEarned` is 100 per kill; `totalEntryFee` is the game's fee |
| Settlement.BountyFigures | settlement.js:260-262 | the bounty pool is 200 per record and the remaining bounty pool 100 per record, so 100 per record goes to killers |
| Settlement.SettlementIgnoresAmounts | settlement.js:240-262 | the recorded amounts, `bountyPerKill` and `maxBounty` do not affect the settlement; only who killed whom does |
| Settlement.MealShare | settlement.js:269-271 | `Math.round(available * (ratio / 100))` computed exactly; `PoolFigures` and `MealShareBounds` state its value and bounds |
| Settlement.SnapshotOf | settlement.js:225-291 | what the engine reads from a game: the entry fee, the players, the record count, the tallies of victims and killers, and the parsed ratio lists; `SnapshotRatiosPositive` and `SnapshotKillers` state it |
| Settlement.Engine | settlement.js:255-357 | the settlement in the order `calculateSettlement` computes it; `BountyFigures`, `PoolFigures`, `RankingOrder`, `ResultRanks`, `Bands`, `MoneyFigures`, `PrizesAddUp` and `PenaltiesAddUp` state its figures |
| Settlement.SettlementOf | settlement.js:222-357 | the engine run on a game's snapshot; `SettlementIgnoresAmounts` and `KillerBountiesAddUp` state what it depends on |
| Settlement.PoolFigures | settlement.js:255-277 | the prize pool is one entry fee per player; the available pool adds 100 per record and the bonus; the meal share is the nearest integer to `available * ratio / 100`; the remaining prize pool is what the meal share leaves |
| Settlement.RemainingMealCost | settlement.js:274 | the meal cost still owed is at least 0 and at least `mealCost - mealShare`, and equals one of them |
| Settlement.MealShareBounds | settlement.js:269-277 | with a ratio between 0 and 100 and an available pool of at least 0, the meal share and the remaining prize pool each lie between 0 and the available pool |
| Settlement.RankingOrder | settlement.js:285-287 | the rankings are the players, each as often as in the input, ordered by non-increasing score, with equal scores in input order |
| Settlement.ResultAt | settlement.js:306-345 | the line of one ranked player: its rank, prize, penalty and money figures; `Bands` and `MoneyFigures` state them |
| Settlement.Results | settlement.js:306-345 | `sortedPlayers.map((player, index) => ...)`: one line per ranked player, in order |
| Settlement.ResultRanks | settlement.js:306-345 | one result per ranked player, in ranking order, with ranks 1 to n |
| Settlement.Bands | settlement.js:310-320 | the first `rewardCount` places get their prize and no penalty; the other places get no prize; those of them in the last `penaltyCount` places pay `penaltyDistribution[index - (n - penaltyCount)]`; everyone else pays nothing |
| Settlement.MoneyFigures | settlement.js:322-343 | `bountyPaid = killedTimes * entryFee`; `totalPaid = entryFee + penalty + bountyPaid`; `totalReceived = prize + bountyEarned`; `netResult = totalReceived - totalPaid`; `settlementAmount = netResult + entryFee + bountyPaid` |
| Settlement.PrizesAddUp | settlement.js:296-313 | when there are at least as many players as reward ratios, the prizes paid are the reward shares, and their total is within half a unit per prize of the remaining prize pool |
| Settlement.PenaltiesAddUp | settlement.js:300-320 | when the bands do not overlap, the penalties charged are the shares of the meal cost still owed, and their total is within half a unit per penalty of it |
| Settlement.SnapshotRatiosPositive | settlement.js:290-291 | the ratio lists read from a game's configuration are all positive |
| Settlement.KillCountAll | settlement.js:240-243 | with distinct player names and every killer a player, each record is credited to exactly one player |
| Settlement.KillerBountiesAddUp | settlement.js:240-262 | with distinct player names and every killer a player, the bounties earned add up to exactly what the pool pays to killers |
| Settlement.SnapshotKillers | settlement.js:233-236 | a game's snapshot tallies the killers of its ledger |
| Settlement.TotalScore | settlement.js:280-282 | the `reduce` that adds up the current scores; `RankingTotalScore`, `WithScoreTotal` and `NewPlayersTotal` state how it behaves |
| Settlement.RankingTotalScore | settlement.js:280-287 | the rankings carry the same total score as the players |
| Settlement.FourPlayerEngine | settlement.js:255-320 | four players at a 200 fee, no kills, ratios 4:3:2:1 and 2:3:5, and inputs 0/10/0 give an available pool of 800, a meal share of 80, a remaining pool of 720, prizes 288/216/144/72 down the ranking, and no penalty |
| Settlement.FourPlayerScenario | settlement.js:222-357 | the same figures for a game configured with the default ratio strings |
| Settlement.Calculate | settlement.js:222-357 | `calculateSettlement` as a loop over the ledger followed by the engine: the result is the settlement of the game's players, ledger and inputs, and the total score is the sum of the current scores |
| Settlement.ReadInputs | settlement.js:104-106 | a missing or zero meal cost or bonus reads as 0; a missing or zero share ratio reads as 10, so the ratio is never 0; other values are kept |
| Settlement.LoadedInputs | settlement.js:96-106 | a stored value that is not an object gives the defaults 0, 10, 0 |
| Settlement.Saved | settlement.js:208-214 | the object `saveSettlementInputs` stores: the meal cost, share ratio and bonus in use; `SavedInputsReload` states that it loads back unchanged |
| Settlement.SavedInputsReload | settlement.js:200-219 | inputs saved after being read load back unchanged |
| Settlement.FindIndex | settlement.js:159-167 | `findIndex` gives the first player with the id, or -1 when there is none |
| Settlement.WithScore | settlement.js:159-168 | the first player with the id gets the new score, and an unknown id changes nothing; `WithScoreChanges` and `WithScoreTotal` state it |
| Settlement.WithScoreChanges | settlement.js:159-169 | only the first player with the id gets the new score; no other player or field changes; an unknown id changes nothing |
| Settlement.WithScoreTotal | settlement.js:158-170 | editing a score moves the total score by the difference |
| Settlement.SettlementPage.constructor | settlement.js:1-38 | the page starts with the stored players of its game, the ledger and the stored inputs handed over, and a settlement whose only figure is the handed-over bounty pool (`\|\| 0`) |
| Settlement.SettlementPage.LoadSettlementInputs | settlement.js:92-114 | the inputs in use become those loaded from storage, and the share ratio is not 0 |
| Settlement.SettlementPage.UpdatePlayerScore | settlement.js:149-177 | the score `parseInt(text) \|\| 0` goes to the first stored player with the id and, only if there is one, to the first of the game's players with that id; nothing else changes |
| Settlement.SettlementPage.CalculateSettlement | settlement.js:222-357 | the page's settlement and total score become those of its players, ledger and inputs, so the handed-over bounty pool is replaced by 200 per record; nothing else changes |
| Settlement.SettlementPage.StartSettlement | settlement.js:180-205 | (with the corrected check; see Findings) the form's values are checked; if they are valid they become the inputs, are saved, the preparation view is left and the settlement is computed; if not, nothing changes |
| Settlement.StartCheck | settlement.js:182-190 | a start is allowed exactly when the meal cost is at least 0 and the ratio is between 0 and 100; a negative meal cost is reported first |
| Settlement.StartAsWritten | settlement.js:180-205 | as written: the outcome is the check of the inputs in use before the form is read, not of the form; when it passes, the form's values are taken unchecked; otherwise the inputs stay as they were |
| Settlement.StaleCheckLocksOut | settlement.js:182-200 | as written, a meal cost of -50 typed into the form is accepted and saved, and after that every start is refused, whatever the form holds |
| Settlement.StartChecked | settlement.js:180-205 | corrected: a start succeeds exactly when the form's values are valid, and the inputs in use are then always valid |
| Bounties.BountyAmount | game.js:407-410 | a kill is worth the configured bounty, reduced to the room left under the cap |
| Bounties.PlayerAt | game.js:399-405 | there is a player exactly for an integer index within the list |
| Bounties.ConfirmOutcome | game.js:390-435 | the same index twice is refused (a `NaN` index never equals anything); an index with no player is refused; otherwise a positive amount is recorded and a pool with no room left is refused |
| Bounties.Confirmed | game.js:412-422 | a recorded kill appends one record naming the two players, with the amount, and grows the pool by that amount; any other outcome leaves the ledger unchanged |
| Bounties.FindRecord | game.js:474-476 | `findIndex` gives the first record with the id, or -1 |
| Bounties.Deleted | game.js:474-480 | the first record with the id is removed, the others keep their order, and the pool drops by its amount but not below 0; an unknown id changes nothing |
| Bounties.ConfirmKeepsCap | game.js:407-422 | a pool within the cap stays within it |
| Bounties.FullPoolRejects | game.js:407-433 | once the pool has reached the cap, no more records are taken |
| Bounties.SameNameKillRecorded | game.js:394-419 | the self-kill check compares indices, so two players who share a name can be recorded killing each other |
| Bounties.ConfirmConsistent | game.js:412-422 | every record holds a positive amount and the pool equals their total; confirming keeps this |
| Bounties.DeleteConsistent | game.js:474-480 | in such a ledger the floor at 0 never applies: deleting takes exactly the record's amount off the pool, and the ledger stays consistent |
| Bounties.DeleteUndoesConfirm | game.js:390-480 | deleting a record just confirmed under a fresh id restores the ledger |
| Selection.DefaultCandidates | game.js:9-16 | six regulars, all selected |
| Selection.DefaultsDistinct | game.js:9-16 | the regulars' names are pairwise distinct |
| Selection.Toggled | game.js:85-88 | a toggle flips the flag of the indexed entry and changes nothing else |
| Selection.ToggleTwice | game.js:85-88 | toggling an entry twice restores the list |
| Selection.AddOutcomeOf | game.js:124-140 | a name that is empty after trimming is refused; a trimmed name already on either list is refused; otherwise the trimmed name is accepted |
| Selection.WithCustom | game.js:142-146 | an accepted name is appended, selected; otherwise the custom list is unchanged |
| Selection.AddKeepsDistinct | game.js:124-146 | adding a custom player keeps the names across both lists pairwise distinct |
| Selection.NamesOf | game.js:134-135 | the names of a candidate list, one per entry, in order |
| Selection.SelectedNames | game.js:161-168 | `filter(selected).map(name)`: the names of the selected entries, no more than the list has |
| Selection.Selected | game.js:171-174 | the selected default names followed by the selected custom names |
| Selection.SelectedNamesAppend | game.js:161-168 | the selected names keep list order: picking from `a + b` gives the names picked from `a` followed by those picked from `b` |
| Selection.SelectedNamesMembers | game.js:162-169 | a name is picked exactly when some selected entry has it |
| Selection.SelectedNamesEmpty | game.js:162-169 | nothing is picked from a list exactly when none of its entries is selected |
| Selection.SelectedEmpty | game.js:171-180 | confirming is refused exactly when no entry of either list is selected |
| Selection.DefaultSelection | game.js:160-175 | at first the selection is the six regulars, in list order |
| GamePage.GameName | game.js:194-196 | `游戏` followed by one more than the number of stored games; `GameNamesDistinct` states that successive names differ |
| GamePage.ReadsAs | game.js:200-206 | a numeric field read as `parseInt(text) \|\| d`: a number other than 0 is kept, and `NaN` or 0 gives `d` |
| GamePage.GameNamesDistinct | game.js:193-195 | games created one after another get different names |
| GamePage.ConfigOf | game.js:198-209 | each numeric field that parses to a non-zero number keeps it, and otherwise takes its default (5, 200, 2000, 100, 600), so no numeric field is 0; an empty ratio text becomes "4:3:2:1" or "2:3:5" |
| GamePage.DefaultConfig | game.js:198-209 | an untouched form gives 5 players, a 200 fee, 2000 points, 100 per kill up to 600, and ratios 4:3:2:1 and 2:3:5 |
| GamePage.TypedConfig | game.js:198-209 | positive numbers typed into the form are kept as typed |
| GamePage.NewGame | game.js:211-217 | the record `createGame` stores: the configuration, status active and no players counted |
| GamePage.NewPlayer | game.js:327-336 | the record `doAddPlayer` stores: the game's id and initial score, one entry fee paid, no extra entries and no bounty |
| GamePage.NewPlayers | game.js:326-336 | one player record per selected name, in order, each starting with the game's initial score and one entry fee paid |
| GamePage.OfGameJoined | game.js:340-345 | players stored under the current game join its list at the end, in order |
| GamePage.NewPlayersTotal | game.js:326-336 | a fresh game's total score is the head count times the initial score |
| GamePage.AddPlayerOffered | game.js:312-313 | the add-player button shows while the game has fewer players than its maximum |
| GamePage.SettleOffered | game.js:314 | the settle button shows from three players on |
| GamePage.JoinIgnoresCapacity | game.js:182-184 | adding any names, whatever the configuration, makes the game's list that many players longer; the add-player button then shows exactly while the new count is below `maxPlayers`, the settle button from three on, and a selection larger than the room left overfills the game |
| GamePage.DefaultSelectionOverfills | game.js:298-315 | confirming the six regulars into a default game ignores its maximum of 5: the add button is hidden and the settle button shown |
| GamePage.GamePage.constructor | game.js:1-18 | the page starts with the stored lists, no current game, an empty ledger and the default selection |
| GamePage.GamePage.CreateGame | game.js:192-233 | a new active game with the form's configuration and no players counted is stored and becomes the current game |
| GamePage.GamePage.TogglePlayerSelection | game.js:85-88 | the default list becomes its toggled form; only that list changes |
| GamePage.GamePage.ToggleCustomPlayerSelection | game.js:118-121 | the custom list becomes its toggled form; only that list changes |
| GamePage.GamePage.AddCustomPlayer | game.js:124-152 | reports the outcome of the checks, updates the custom list as `WithCustom`, and keeps the names of both lists pairwise distinct |
| GamePage.GamePage.DoAddPlayer | game.js:326-349 | one record for the current game is appended to the stored players, and the game's list is filtered again, which makes it one player longer |
| GamePage.GamePage.AddPlayer | game.js:318-323 | a trimmed, non-blank answer is added as a player, with no check for a full game or a repeated name; a cancelled or blank answer changes nothing |
| GamePage.GamePage.AddEach | game.js:182-185 | the loop adds each name in turn, so the stored list grows by the new records in order |
| GamePage.GamePage.ConfirmPlayerSelection | game.js:160-189 | refused exactly when nothing is selected; otherwise the selected names, defaults first, are stored as new players and join the game's list at its end |
| GamePage.GamePage.ConfirmBounty | game.js:390-435 | the outcome and the new ledger are those of `ConfirmOutcome` and `Confirmed`; with no current game (and so no players) the request is refused as a self-kill or an invalid player and the ledger is unchanged; a consistent ledger stays consistent and a pool within the cap stays within it |
| GamePage.GamePage.DeleteBountyRecord | game.js:472-490 | the new ledger is `Deleted`, and a consistent ledger stays consistent |

## Left out

- Floating point: `parseFloat` of the meal cost, share ratio and bonus, and the float arithmetic inside `Math.round`, are modelled as exact integer arithmetic. Money is `int`. `Number` precision limits are not modelled.
- Storage, `sessionStorage`, the DOM, toasts, modals, rendering and `try`/`catch` are not modelled. The stored lists are fields of the page classes. The hand-offs between pages are constructor arguments. The settlement page's initial `remainingBountyPool`, `availablePrizePool` and `remainingPrizePool`, which the source leaves `undefined` until `calculateSettlement` runs, start at 0; nothing modelled reads them before then.
- Ids, timestamps (`Date.now()`, `Math.random()`, `toISOString`, `toLocaleString`) and the browser `prompt` are parameters handed in by the caller.
- storage.js and index.js are not part of this model.
- `loadGameData`, `saveGameState` and `settleGame` on the game page only move state in and out of storage, so they are not modelled. The settlement page's constructor takes the ledger and the bounty pool they hand over.
- `Game.playerCount` is stored as 0 by `createGame`, and no modelled code updates it.
- GamePage.GamePage.DoAddPlayer and GamePage.GamePage.AddEach require a current game: with none, `doAddPlayer` reads `game.initialScore` of `null` and throws (game.js:331). GamePage.GamePage.AddPlayer and GamePage.GamePage.ConfirmPlayerSelection require one only on the paths that reach `doAddPlayer`; a blank answer or an empty selection is handled with no game. The page only offers these actions once a game has been created or loaded.
- Settlement.SettlementPage.UpdatePlayerScore: the `isNaN` branch of `updatePlayerScore` (settlement.js:152-155) cannot be taken, because `parseInt(...) || 0` is never `NaN`, so it is not modelled.
- Settlement.TallyKills: the tallies are keyed by name in plain objects. A player named like an `Object.prototype` member (for example "constructor") would read an inherited value; that case is not modelled.
- Settlement.KillerBountiesAddUp: stated only for distinct player names and killers who are players. The manual add path allows repeated names, and then a record is credited to every player of that name.
- Settlement.SettlementPage.StartSettlement: models the corrected check. The code as written is `Settlement.StartAsWritten` (see Findings).
- Settlement.PrizesAddUp and Settlement.PenaltiesAddUp: stated only when the bands fit the player count. With fewer players than ratios, the extra shares go to nobody, and that case is not summed.

## Findings

| source | as written | input that shows it | evidently intended | confidence | as-written member | corrected member |
|---|---|---|---|---|---|---|
| settlement.js:182-200 | `startSettlement` checks the meal cost and share ratio held from before, and only then reads the form's new values, which it saves and uses unchecked | inputs 0/10/0 in use, form meal cost -50: the start is accepted, -50 is saved, and every later start is refused whatever the form holds, also after a reload | check the values read from the form before taking them | not executed | Settlement.StaleCheckLocksOut | Settlement.StartChecked |
