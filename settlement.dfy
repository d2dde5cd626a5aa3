/**
 * The settlement engine (settlement.js, `calculateSettlement`) and the
 * settlement page state it runs on (`updatePlayerScore`,
 * `loadSettlementInputs`, `startSettlement`).
 *
 * Money is integral. The meal share ratio, meal cost and bonus are read with
 * `parseFloat` in the source; here they are integers, and the meal share is
 * `Math.round(available * ratio / 100)` computed exactly.
 */
module Settlement {
  import opened JsText
  import opened Records
  import opened Ratios
  import opened Ranking

  /** What a killer earns per record, whatever the game's `bountyPerKill`. */
  const KillerBounty := 100
  /** What each record is taken to have put into the bounty pool. */
  const RecordBounty := 200

  // ---------------------------------------------------------------------
  // Kill tallies

  /** The victims named by the ledger, in ledger order. */
  function Victims(records: seq<BountyRecord>): (names: seq<string>)
    ensures |names| == |records|
  {
    seq(|records|, k requires 0 <= k < |records| => records[k].killedPlayer)
  }

  /** The killers named by the ledger, in ledger order. */
  function Killers(records: seq<BountyRecord>): (names: seq<string>)
    ensures |names| == |records|
  {
    seq(|records|, k requires 0 <= k < |records| => records[k].killerPlayer)
  }

  /** How often `name` occurs in `names`. */
  function Count(names: seq<string>, name: string): (n: nat)
    ensures n <= |names|
  {
    if names == [] then 0
    else Count(names[..|names| - 1], name) + (if names[|names| - 1] == name then 1 else 0)
  }

  /** The tally a `forEach` over `names` builds: every name that occurs,
      mapped to the number of its occurrences. */
  function Counts(names: seq<string>): map<string, nat> {
    map name | name in names :: Count(names, name)
  }

  /** `counts[name] || 0`: a name the tally never saw counts 0. */
  function Times(counts: map<string, nat>, name: string): nat {
    if name in counts then counts[name] else 0
  }

  /** Helper: a name that does not occur counts 0. */
  lemma {:induction false} CountAbsent(names: seq<string>, name: string)
    requires name !in names
    ensures Count(names, name) == 0
  {
    if names != [] {
      assert forall x :: x in names[..|names| - 1] ==> x in names;
      CountAbsent(names[..|names| - 1], name);
    }
  }

  /** Looking a name up in the tally gives the number of its occurrences,
      0 included. */
  lemma TimesCounts(names: seq<string>, name: string)
    ensures Times(Counts(names), name) == Count(names, name)
  {
    if name !in names {
      CountAbsent(names, name);
    }
  }

  /** Helper: one more name bumps exactly that name's tally. */
  lemma CountsAppend(names: seq<string>, x: string)
    ensures Counts(names + [x]) == Counts(names)[x := Times(Counts(names), x) + 1]
  {
    var longer := names + [x];
    assert longer[..|longer| - 1] == names;
    TimesCounts(names, x);
    forall name | name in names
      ensures name in longer
    {
      var k :| 0 <= k < |names| && names[k] == name;
      assert longer[k] == name;
    }
    forall name | name in longer
      ensures name in names || name == x
    {
      var k :| 0 <= k < |longer| && longer[k] == name;
      if k < |names| {
        assert names[k] == name;
      }
    }
  }

  /** The tallies of `calculateSettlement`: its one `forEach` over the ledger
      builds both, how often each name was the victim and how often the
      killer. */
  method TallyKills(records: seq<BountyRecord>) returns (killed: map<string, nat>, killer: map<string, nat>)
    ensures killed == Counts(Victims(records))
    ensures killer == Counts(Killers(records))
  {
    killed, killer := map[], map[];
    for i := 0 to |records|
      invariant killed == Counts(Victims(records[..i]))
      invariant killer == Counts(Killers(records[..i]))
    {
      var record := records[i];
      assert Victims(records[..i + 1]) == Victims(records[..i]) + [record.killedPlayer];
      assert Killers(records[..i + 1]) == Killers(records[..i]) + [record.killerPlayer];
      CountsAppend(Victims(records[..i]), record.killedPlayer);
      CountsAppend(Killers(records[..i]), record.killerPlayer);
      killed := killed[record.killedPlayer := Times(killed, record.killedPlayer) + 1];
      killer := killer[record.killerPlayer := Times(killer, record.killerPlayer) + 1];
    }
    assert records[..|records|] == records;
  }

  // ---------------------------------------------------------------------
  // The settlement record

  /** A player with the bounty figures `calculateSettlement` attaches. */
  datatype Entrant = Entrant(
    player: Player,
    bountyEarned: int,
    killedTimes: nat,
    killerTimes: nat,
    totalEntryFee: int)

  /** One line of the final results. */
  datatype PlayerResult = PlayerResult(
    entrant: Entrant,
    rank: nat,
    prizeAmount: int,
    penaltyAmount: int,
    entryFee: int,
    bountyPaid: int,
    totalPaid: int,
    totalReceived: int,
    netResult: int,
    settlementAmount: int)

  /** The `settlement` object the page shows and stores on finishing. */
  datatype Settlement = Settlement(
    prizePool: int,
    bountyPool: int,
    remainingBountyPool: int,
    availablePrizePool: int,
    mealCost: int,
    mealShareAmount: int,
    remainingPrizePool: int,
    rankings: seq<Entrant>,
    finalResults: seq<PlayerResult>)

  /** The operator's inputs: meal cost, meal share ratio (percent) and bonus. */
  datatype Inputs = Inputs(mealCost: int, shareRatio: int, otherBonus: int)

  /** The score the ranking sorts on. */
  function Score(e: Entrant): int {
    e.player.currentScore
  }

  /** A player with the bounty figures looked up in the two tallies. */
  function EntrantOf(p: Player, killed: map<string, nat>, killer: map<string, nat>, entryFee: int): Entrant {
    var killerTimes := Times(killer, p.name);
    Entrant(p, killerTimes * KillerBounty, Times(killed, p.name), killerTimes, entryFee)
  }

  /** `players.map(...)`: every player with its bounty figures. */
  function Entrants(players: seq<Player>, killed: map<string, nat>, killer: map<string, nat>, entryFee: int): (es: seq<Entrant>)
    ensures |es| == |players|
  {
    seq(|players|, k requires 0 <= k < |players| => EntrantOf(players[k], killed, killer, entryFee))
  }

  /** The entry fee an entrant brings into the prize pool. */
  function EntryFeeOf(e: Entrant): int {
    e.totalEntryFee
  }

  /** The bounty an entrant earned. */
  function BountyOf(e: Entrant): int {
    e.bountyEarned
  }

  function Max(a: int, b: int): int {
    if a >= b then a else b
  }

  /** `Math.round(available * (ratio / 100))`, computed exactly. */
  function MealShare(available: int, ratio: int): int {
    RoundDiv(available * ratio, 100)
  }

  /** What the group still owes for the meal after the pool's share. */
  function RemainingMealCost(mealCost: int, mealShare: int): (owed: int)
    ensures owed >= 0 && owed >= mealCost - mealShare
    ensures owed == 0 || owed == mealCost - mealShare
  {
    Max(0, mealCost - mealShare)
  }

  /** The line for the player at `index` of an `n`-player ranking. A prize
      goes to the first `rewardCount` places, a penalty to the last
      `penaltyCount` places that won no prize. */
  function ResultAt(e: Entrant, index: nat, n: nat, rewardCount: nat, penaltyCount: nat,
                    rewardDist: seq<int>, penaltyDist: seq<int>, entryFee: int): PlayerResult
  {
    var rewarded := index < rewardCount && index < |rewardDist|;
    var prize := if rewarded then rewardDist[index] else 0;
    var penaltyIndex := index - (n - penaltyCount);
    var penalty :=
      if !rewarded && index >= n - penaltyCount && 0 <= penaltyIndex < |penaltyDist|
      then penaltyDist[penaltyIndex] else 0;
    var bountyPaid := e.killedTimes * entryFee;
    var totalPaid := entryFee + penalty + bountyPaid;
    var totalReceived := prize + e.bountyEarned;
    PlayerResult(e, index + 1, prize, penalty, entryFee, bountyPaid, totalPaid, totalReceived,
                 totalReceived - totalPaid, prize + e.bountyEarned - penalty)
  }

  /** `sortedPlayers.map((player, index) => ...)` */
  function Results(ranked: seq<Entrant>, rewardCount: nat, penaltyCount: nat,
                   rewardDist: seq<int>, penaltyDist: seq<int>, entryFee: int): (rs: seq<PlayerResult>)
    ensures |rs| == |ranked|
  {
    seq(|ranked|, i requires 0 <= i < |ranked| =>
      ResultAt(ranked[i], i, |ranked|, rewardCount, penaltyCount, rewardDist, penaltyDist, entryFee))
  }

  /** Everything `calculateSettlement` reads: the entry fee, the players,
      the number of ledger records, the two tallies, the parsed ratio lists
      and the operator's inputs. */
  datatype Snapshot = Snapshot(
    entryFee: int,
    players: seq<Player>,
    recordCount: nat,
    killed: map<string, nat>,
    killer: map<string, nat>,
    rewardRatios: seq<int>,
    penaltyRatios: seq<int>,
    inputs: Inputs)

  /** The snapshot of a game's configuration, players and bounty ledger. */
  function SnapshotOf(config: GameConfig, players: seq<Player>, records: seq<BountyRecord>, inputs: Inputs): Snapshot {
    Snapshot(config.entryFee, players, |records|, Counts(Victims(records)), Counts(Killers(records)),
             ParseRatios(config.rewardRatios), ParseRatios(config.penaltyRatios), inputs)
  }

  /** The players with their bounty figures. */
  function EntrantsOf(snap: Snapshot): (es: seq<Entrant>)
    ensures |es| == |snap.players|
  {
    Entrants(snap.players, snap.killed, snap.killer, snap.entryFee)
  }

  /** The settlement of a snapshot, in the order `calculateSettlement`
      computes it. */
  function Engine(snap: Snapshot): Settlement {
    var entrants := EntrantsOf(snap);
    var prizePool := SumOf(entrants, EntryFeeOf);
    var bountyPool := snap.recordCount * RecordBounty;
    var paidToKillers := snap.recordCount * KillerBounty;
    var remainingBounty := bountyPool - paidToKillers;
    var available := prizePool + remainingBounty + snap.inputs.otherBonus;
    var mealShare := MealShare(available, snap.inputs.shareRatio);
    var owed := RemainingMealCost(snap.inputs.mealCost, mealShare);
    var remainingPrize := available - mealShare;
    var ranked := Sort(entrants, Score);
    var rewardDist := Distribution(remainingPrize, snap.rewardRatios);
    var penaltyDist := Distribution(owed, snap.penaltyRatios);
    Settlement(prizePool, bountyPool, remainingBounty, available, snap.inputs.mealCost, mealShare, remainingPrize,
               ranked, Results(ranked, |snap.rewardRatios|, |snap.penaltyRatios|, rewardDist, penaltyDist, snap.entryFee))
  }

  /** The settlement of a game's players and bounty ledger. */
  function SettlementOf(config: GameConfig, players: seq<Player>, records: seq<BountyRecord>, inputs: Inputs): Settlement {
    Engine(SnapshotOf(config, players, records, inputs))
  }

  /** The sum of the players' current scores (`totalScore`). */
  function TotalScore(players: seq<Player>): int {
    if players == [] then 0 else players[0].currentScore + TotalScore(players[1..])
  }

  /** The players' names, in list order. */
  function Names(players: seq<Player>): (names: seq<string>)
    ensures |names| == |players|
  {
    seq(|players|, k requires 0 <= k < |players| => players[k].name)
  }

  /** No two players share a name. */
  predicate DistinctNames(players: seq<Player>) {
    forall i, j :: 0 <= i < j < |players| ==> players[i].name != players[j].name
  }

  // ---------------------------------------------------------------------
  // Properties of the settlement

  /** Each player's bounty figures: `killedTimes` and `killerTimes` count the
      ledger records naming the player as victim and as killer, and
      `bountyEarned` is 100 per kill. */
  lemma EntrantFigures(players: seq<Player>, records: seq<BountyRecord>, entryFee: int, k: nat)
    requires k < |players|
    ensures var e := Entrants(players, Counts(Victims(records)), Counts(Killers(records)), entryFee)[k];
      e.player == players[k] &&
      e.killedTimes == Count(Victims(records), players[k].name) &&
      e.killerTimes == Count(Killers(records), players[k].name) &&
      e.bountyEarned == 100 * e.killerTimes &&
      e.totalEntryFee == entryFee
  {
    TimesCounts(Victims(records), players[k].name);
    TimesCounts(Killers(records), players[k].name);
  }

  /** The bounty pool figures depend only on the number of records: 200 and
      100 per record, whatever the amounts recorded. */
  lemma BountyFigures(snap: Snapshot)
    ensures var s := Engine(snap);
      s.bountyPool == 200 * snap.recordCount && s.remainingBountyPool == 100 * snap.recordCount &&
      s.bountyPool - s.remainingBountyPool == 100 * snap.recordCount
  {
  }

  /** The recorded amounts and the configured `bountyPerKill` and `maxBounty`
      play no part in the settlement: only who killed whom does. */
  lemma SettlementIgnoresAmounts(config: GameConfig, config': GameConfig, players: seq<Player>,
                                 records: seq<BountyRecord>, records': seq<BountyRecord>, inputs: Inputs)
    requires config' == config.(bountyPerKill := config'.bountyPerKill, maxBounty := config'.maxBounty)
    requires |records'| == |records|
    requires forall k :: 0 <= k < |records| ==>
      records'[k].killerPlayer == records[k].killerPlayer && records'[k].killedPlayer == records[k].killedPlayer
    ensures SnapshotOf(config', players, records', inputs) == SnapshotOf(config, players, records, inputs)
    ensures SettlementOf(config', players, records', inputs) == SettlementOf(config, players, records, inputs)
  {
    assert Victims(records') == Victims(records);
    assert Killers(records') == Killers(records);
  }

  /** Helper: a list whose entry fees are all `fee` brings `fee` per entrant. */
  lemma {:induction false} EntryFeesSum(es: seq<Entrant>, fee: int)
    requires forall k :: 0 <= k < |es| ==> es[k].totalEntryFee == fee
    ensures SumOf(es, EntryFeeOf) == |es| * fee
  {
    if es != [] {
      EntryFeesSum(es[1..], fee);
    }
  }

  /** The pool arithmetic: the prize pool is one entry fee per player, the
      available pool adds 100 per record and the bonus, the meal share is the
      integer nearest to `available * ratio / 100` (a half rounded up), and
      the remaining prize pool is what the meal share leaves. */
  lemma PoolFigures(snap: Snapshot)
    ensures var s, n := Engine(snap), |snap.players|;
      s.prizePool == n * snap.entryFee &&
      s.availablePrizePool == n * snap.entryFee + 100 * snap.recordCount + snap.inputs.otherBonus &&
      200 * s.mealShareAmount - 100 <= 2 * (s.availablePrizePool * snap.inputs.shareRatio) < 200 * s.mealShareAmount + 100 &&
      s.remainingPrizePool == s.availablePrizePool - s.mealShareAmount &&
      s.mealCost == snap.inputs.mealCost
  {
    EntryFeesSum(EntrantsOf(snap), snap.entryFee);
  }

  /** With a non-negative available pool and a ratio between 0 and 100, the
      meal share lies between 0 and the available pool, and so does the
      remaining prize pool. */
  lemma MealShareBounds(available: int, ratio: int)
    requires available >= 0 && 0 <= ratio <= 100
    ensures 0 <= MealShare(available, ratio) <= available
    ensures 0 <= available - MealShare(available, ratio) <= available
  {
    if ratio == 0 {
      assert available * ratio == 0;
      RoundDivUnique(0, 100, 0);
    } else {
      RoundedShareBounds(available, ratio, 100, available * ratio, MealShare(available, ratio));
    }
  }

  /** The rankings are the players ordered by non-increasing score, each
      player once, with equal scores kept in input order. */
  lemma RankingOrder(snap: Snapshot)
    ensures var s, es := Engine(snap), EntrantsOf(snap);
      SortedDesc(s.rankings, Score) &&
      multiset(s.rankings) == multiset(es) &&
      forall v :: WithKey(s.rankings, Score, v) == WithKey(es, Score, v)
  {
    var es := EntrantsOf(snap);
    SortSorted(es, Score);
    SortPermutation(es, Score);
    forall v
      ensures WithKey(Sort(es, Score), Score, v) == WithKey(es, Score, v)
    {
      SortStable(es, Score, v);
    }
  }

  /** One result per ranked player, in ranking order, ranked 1 to n. */
  lemma ResultRanks(snap: Snapshot)
    ensures var s := Engine(snap);
      |s.finalResults| == |s.rankings| == |snap.players| &&
      forall i :: 0 <= i < |s.finalResults| ==>
        s.finalResults[i].rank == i + 1 && s.finalResults[i].entrant == s.rankings[i]
  {
  }

  /** Prize and penalty bands, given one share per ratio: the first
      `rewardCount` places get their prize and no penalty (a reward wins where
      the bands overlap); the last `penaltyCount` places that won nothing pay
      their penalty; everyone else gets neither. */
  lemma Bands(ranked: seq<Entrant>, rewardDist: seq<int>, penaltyDist: seq<int>, entryFee: int, i: nat)
    requires i < |ranked|
    ensures var n, r := |ranked|, Results(ranked, |rewardDist|, |penaltyDist|, rewardDist, penaltyDist, entryFee)[i];
      var penaltyStart := n - |penaltyDist|;
      (i < |rewardDist| ==> r.prizeAmount == rewardDist[i] && r.penaltyAmount == 0) &&
      (i >= |rewardDist| ==> r.prizeAmount == 0) &&
      (i >= |rewardDist| && i >= penaltyStart ==> r.penaltyAmount == penaltyDist[i - penaltyStart]) &&
      (i < penaltyStart ==> r.penaltyAmount == 0)
  {
  }

  /** The money figures of every line: what the player paid, received and
      nets, and the settlement amount, which leaves out the entry fee and the
      bounty paid. */
  lemma MoneyFigures(ranked: seq<Entrant>, rewardCount: nat, penaltyCount: nat,
                     rewardDist: seq<int>, penaltyDist: seq<int>, entryFee: int, i: nat)
    requires i < |ranked|
    ensures var r := Results(ranked, rewardCount, penaltyCount, rewardDist, penaltyDist, entryFee)[i];
      r.entryFee == entryFee &&
      r.bountyPaid == ranked[i].killedTimes * entryFee &&
      r.totalPaid == r.entryFee + r.penaltyAmount + r.bountyPaid &&
      r.totalReceived == r.prizeAmount + ranked[i].bountyEarned &&
      r.netResult == r.totalReceived - r.totalPaid &&
      r.settlementAmount == r.netResult + r.entryFee + r.bountyPaid
  {
  }

  // ---------------------------------------------------------------------
  // Totals

  /** The prize of a result line. */
  function PrizeOf(r: PlayerResult): int {
    r.prizeAmount
  }

  /** The penalty of a result line. */
  function PenaltyOf(r: PlayerResult): int {
    r.penaltyAmount
  }

  /** All ratios of a list are positive, as every parsed ratio list is. */
  predicate AllPositive(ratios: seq<int>) {
    forall k :: 0 <= k < |ratios| ==> ratios[k] > 0
  }

  /** Helper: the prizes from place `j` on. */
  lemma {:induction false} PrizesFrom(ranked: seq<Entrant>, rewardDist: seq<int>, penaltyDist: seq<int>, entryFee: int, j: nat)
    requires |rewardDist| <= |ranked| && j <= |ranked|
    ensures var rs := Results(ranked, |rewardDist|, |penaltyDist|, rewardDist, penaltyDist, entryFee);
      SumOf(rs[j..], PrizeOf) == if j < |rewardDist| then Sum(rewardDist[j..]) else 0
    decreases |ranked| - j
  {
    var rs := Results(ranked, |rewardDist|, |penaltyDist|, rewardDist, penaltyDist, entryFee);
    if j < |ranked| {
      PrizesFrom(ranked, rewardDist, penaltyDist, entryFee, j + 1);
      assert rs[j..][1..] == rs[j + 1..];
      if j < |rewardDist| {
        assert rewardDist[j..][1..] == rewardDist[j + 1..];
      }
    }
  }

  /** Helper: the penalties from place `j` on, when the bands do not
      overlap. */
  lemma {:induction false} PenaltiesFrom(ranked: seq<Entrant>, rewardDist: seq<int>, penaltyDist: seq<int>, entryFee: int, j: nat)
    requires |rewardDist| + |penaltyDist| <= |ranked| && j <= |ranked|
    ensures var rs := Results(ranked, |rewardDist|, |penaltyDist|, rewardDist, penaltyDist, entryFee);
      var start := |ranked| - |penaltyDist|;
      SumOf(rs[j..], PenaltyOf) == if j >= start then Sum(penaltyDist[j - start..]) else Sum(penaltyDist)
    decreases |ranked| - j
  {
    var rs := Results(ranked, |rewardDist|, |penaltyDist|, rewardDist, penaltyDist, entryFee);
    var start := |ranked| - |penaltyDist|;
    if j < |ranked| {
      PenaltiesFrom(ranked, rewardDist, penaltyDist, entryFee, j + 1);
      assert rs[j..][1..] == rs[j + 1..];
      if j >= start {
        assert penaltyDist[j - start..][1..] == penaltyDist[j + 1 - start..];
      } else if j + 1 == start {
        assert penaltyDist[0..] == penaltyDist;
      }
    }
  }

  /** When there are at least as many players as reward ratios, the prizes
      paid out are exactly the reward shares: their total is within half a
      unit per prize of the remaining prize pool, and the residue is not
      paid to anyone. */
  lemma PrizesAddUp(snap: Snapshot)
    requires AllPositive(snap.rewardRatios) && AllPositive(snap.penaltyRatios)
    requires |snap.rewardRatios| <= |snap.players|
    ensures var s := Engine(snap);
      var total := SumOf(s.finalResults, PrizeOf);
      total == Sum(Distribution(s.remainingPrizePool, snap.rewardRatios)) &&
      (snap.rewardRatios != [] ==>
        -|snap.rewardRatios| < 2 * (total - s.remainingPrizePool) <= |snap.rewardRatios|)
  {
    var s := Engine(snap);
    var rewardDist := Distribution(s.remainingPrizePool, snap.rewardRatios);
    var penaltyDist := Distribution(RemainingMealCost(snap.inputs.mealCost, s.mealShareAmount), snap.penaltyRatios);
    PositivesOfPositive(snap.rewardRatios);
    PositivesOfPositive(snap.penaltyRatios);
    PrizesFrom(s.rankings, rewardDist, penaltyDist, snap.entryFee, 0);
    assert s.finalResults[0..] == s.finalResults;
    if snap.rewardRatios != [] {
      assert rewardDist[0..] == rewardDist;
      DistributionResidue(s.remainingPrizePool, snap.rewardRatios);
    }
  }

  /** When the reward and penalty bands do not overlap, the penalties charged
      are exactly the penalty shares of the meal cost still owed: their total
      is within half a unit per penalty of that cost. */
  lemma PenaltiesAddUp(snap: Snapshot)
    requires AllPositive(snap.rewardRatios) && AllPositive(snap.penaltyRatios)
    requires |snap.rewardRatios| + |snap.penaltyRatios| <= |snap.players|
    ensures var s := Engine(snap);
      var owed := RemainingMealCost(snap.inputs.mealCost, s.mealShareAmount);
      var total := SumOf(s.finalResults, PenaltyOf);
      total == Sum(Distribution(owed, snap.penaltyRatios)) &&
      (snap.penaltyRatios != [] ==> -|snap.penaltyRatios| < 2 * (total - owed) <= |snap.penaltyRatios|)
  {
    var s := Engine(snap);
    var owed := RemainingMealCost(snap.inputs.mealCost, s.mealShareAmount);
    var rewardDist := Distribution(s.remainingPrizePool, snap.rewardRatios);
    var penaltyDist := Distribution(owed, snap.penaltyRatios);
    PositivesOfPositive(snap.rewardRatios);
    PositivesOfPositive(snap.penaltyRatios);
    PenaltiesFrom(s.rankings, rewardDist, penaltyDist, snap.entryFee, 0);
    assert s.finalResults[0..] == s.finalResults;
    if snap.penaltyRatios != [] {
      DistributionResidue(owed, snap.penaltyRatios);
    } else {
      assert penaltyDist[0..] == penaltyDist;
    }
  }

  /** A snapshot of a game reads ratio lists that are all positive. */
  lemma SnapshotRatiosPositive(config: GameConfig, players: seq<Player>, records: seq<BountyRecord>, inputs: Inputs)
    ensures AllPositive(SnapshotOf(config, players, records, inputs).rewardRatios)
    ensures AllPositive(SnapshotOf(config, players, records, inputs).penaltyRatios)
  {
  }

  /** The number of players named `x`. */
  function Named(players: seq<Player>, x: string): nat {
    if players == [] then 0 else (if players[0].name == x then 1 else 0) + Named(players[1..], x)
  }

  /** The kills credited to the players: for each player, the number of
      killer names that are the player's. */
  function KillCount(players: seq<Player>, killers: seq<string>): nat {
    if players == [] then 0 else Count(killers, players[0].name) + KillCount(players[1..], killers)
  }

  /** Helper: one more kill is credited once per player of the killer's
      name. */
  lemma {:induction false} KillCountAppend(players: seq<Player>, killers: seq<string>, x: string)
    ensures KillCount(players, killers + [x]) == KillCount(players, killers) + Named(players, x)
  {
    if players != [] {
      assert (killers + [x])[..|killers|] == killers;
      KillCountAppend(players[1..], killers, x);
    }
  }

  /** Helper: among players with distinct names, a player's name is borne
      once. */
  lemma {:induction false} NamedOnce(players: seq<Player>, x: string)
    requires DistinctNames(players)
    ensures x in Names(players) ==> Named(players, x) == 1
    ensures x !in Names(players) ==> Named(players, x) == 0
  {
    if players != [] {
      var rest := players[1..];
      assert Names(players) == [players[0].name] + Names(rest);
      NamedOnce(rest, x);
    }
  }

  /** Helper: with distinct names and every killer a player, each kill is
      credited exactly once. */
  lemma {:induction false} KillCountAll(players: seq<Player>, killers: seq<string>)
    requires DistinctNames(players)
    requires forall k :: 0 <= k < |killers| ==> killers[k] in Names(players)
    ensures KillCount(players, killers) == |killers|
  {
    if killers == [] {
      KillCountNone(players);
    } else {
      var init := killers[..|killers| - 1];
      var x := killers[|killers| - 1];
      assert init + [x] == killers;
      KillCountAll(players, init);
      KillCountAppend(players, init, x);
      NamedOnce(players, x);
    }
  }

  /** Helper: an empty ledger credits nothing. */
  lemma {:induction false} KillCountNone(players: seq<Player>)
    ensures KillCount(players, []) == 0
  {
    if players != [] {
      KillCountNone(players[1..]);
    }
  }

  /** Helper: the bounties earned are 100 per credited kill. */
  lemma {:induction false} EntrantsBounty(players: seq<Player>, killed: map<string, nat>, killers: seq<string>, entryFee: int)
    ensures SumOf(Entrants(players, killed, Counts(killers), entryFee), BountyOf) == 100 * KillCount(players, killers)
  {
    if players != [] {
      var es := Entrants(players, killed, Counts(killers), entryFee);
      assert es[1..] == Entrants(players[1..], killed, Counts(killers), entryFee);
      EntrantsBounty(players[1..], killed, killers, entryFee);
      TimesCounts(killers, players[0].name);
    }
  }

  /** When player names are distinct and every killer in the ledger is a
      player, the bounties earned add up to the 100 per record that the
      bounty pool figures take as paid to killers. */
  lemma KillerBountiesAddUp(snap: Snapshot, killers: seq<string>)
    requires snap.killer == Counts(killers) && snap.recordCount == |killers|
    requires DistinctNames(snap.players)
    requires forall k :: 0 <= k < |killers| ==> killers[k] in Names(snap.players)
    ensures SumOf(Engine(snap).rankings, BountyOf) == Engine(snap).bountyPool - Engine(snap).remainingBountyPool
  {
    SortSum(EntrantsOf(snap), Score, BountyOf);
    EntrantsBounty(snap.players, snap.killed, killers, snap.entryFee);
    KillCountAll(snap.players, killers);
    BountyFigures(snap);
  }

  /** A game's snapshot tallies the killers of its ledger. */
  lemma SnapshotKillers(config: GameConfig, players: seq<Player>, records: seq<BountyRecord>, inputs: Inputs)
    ensures var snap := SnapshotOf(config, players, records, inputs);
      snap.killer == Counts(Killers(records)) && snap.recordCount == |Killers(records)| && snap.players == players
  {
  }

  /** Helper: the entrants carry the players' scores. */
  lemma {:induction false} EntrantsScore(players: seq<Player>, killed: map<string, nat>, killer: map<string, nat>, entryFee: int)
    ensures SumOf(Entrants(players, killed, killer, entryFee), Score) == TotalScore(players)
  {
    if players != [] {
      assert Entrants(players, killed, killer, entryFee)[1..] == Entrants(players[1..], killed, killer, entryFee);
      EntrantsScore(players[1..], killed, killer, entryFee);
    }
  }

  /** The rankings carry the same total score as the players. */
  lemma RankingTotalScore(snap: Snapshot)
    ensures SumOf(Engine(snap).rankings, Score) == TotalScore(snap.players)
  {
    SortSum(EntrantsOf(snap), Score, Score);
    EntrantsScore(snap.players, snap.killed, snap.killer, snap.entryFee);
  }

  /** The worked example: four players at an entry fee of 200, no kills, the
      default ratios and the default inputs (no meal cost, a 10 percent
      share, no bonus). The available pool is 800, the meal takes 80, and the
      remaining 720 is shared 288, 216, 144 and 72 down the ranking; with the
      whole table rewarded and nothing owed, nobody pays a penalty. */
  lemma FourPlayerEngine(snap: Snapshot)
    requires snap.entryFee == 200 && |snap.players| == 4 && snap.recordCount == 0
    requires snap.rewardRatios == [4, 3, 2, 1] && snap.penaltyRatios == [2, 3, 5]
    requires snap.inputs == Inputs(0, 10, 0)
    ensures var s := Engine(snap);
      s.availablePrizePool == 800 && s.mealShareAmount == 80 && s.remainingPrizePool == 720 &&
      s.finalResults[0].prizeAmount == 288 && s.finalResults[1].prizeAmount == 216 &&
      s.finalResults[2].prizeAmount == 144 && s.finalResults[3].prizeAmount == 72 &&
      forall i :: 0 <= i < 4 ==> s.finalResults[i].penaltyAmount == 0
  {
    var s := Engine(snap);
    PoolFigures(snap);
    assert s.availablePrizePool == 800;
    assert s.mealShareAmount == 80;
    DistributionOfSevenHundredTwenty();
    var rewardDist := Distribution(720, [4, 3, 2, 1]);
    var penaltyDist := Distribution(RemainingMealCost(0, 80), [2, 3, 5]);
    forall i | 0 <= i < 4
      ensures s.finalResults[i].prizeAmount == rewardDist[i] && s.finalResults[i].penaltyAmount == 0
    {
      Bands(s.rankings, rewardDist, penaltyDist, 200, i);
    }
  }

  /** The worked example for a game created with the default configuration. */
  lemma FourPlayerScenario(config: GameConfig, players: seq<Player>)
    requires config.entryFee == 200 && config.rewardRatios == "4:3:2:1" && config.penaltyRatios == "2:3:5"
    requires |players| == 4
    ensures var s := SettlementOf(config, players, [], Inputs(0, 10, 0));
      s.availablePrizePool == 800 && s.mealShareAmount == 80 && s.remainingPrizePool == 720 &&
      s.finalResults[0].prizeAmount == 288 && s.finalResults[3].prizeAmount == 72 &&
      s.finalResults[3].penaltyAmount == 0
  {
    ParseRewardDefault();
    ParsePenaltyDefault();
    FourPlayerEngine(SnapshotOf(config, players, [], Inputs(0, 10, 0)));
  }

  // ---------------------------------------------------------------------
  // The settlement page

  /** The three input values as they are read, from the form or from what is
      stored under `settlementInputs_<gameId>`; a value that is missing, or
      not a number, reads as `NaN`. */
  datatype InputFields = InputFields(finalMealCost: Num, finalMealShareRatio: Num, otherBonus: Num)

  /** The inputs read from three numbers with the page's `|| default` rule:
      a zero or missing meal cost or bonus is 0, a zero or missing share
      ratio is 10. The share ratio is never 0, and a non-zero value is kept
      as it is. */
  function ReadInputs(saved: InputFields): (inputs: Inputs)
    ensures inputs.shareRatio != 0
    ensures saved.finalMealShareRatio.Int? && saved.finalMealShareRatio.value != 0 ==>
      inputs.shareRatio == saved.finalMealShareRatio.value
    ensures !(saved.finalMealShareRatio.Int? && saved.finalMealShareRatio.value != 0) ==> inputs.shareRatio == 10
    ensures saved.finalMealCost.Int? ==> inputs.mealCost == saved.finalMealCost.value
    ensures saved.finalMealCost.NaN? ==> inputs.mealCost == 0
    ensures saved.otherBonus.Int? ==> inputs.otherBonus == saved.otherBonus.value
    ensures saved.otherBonus.NaN? ==> inputs.otherBonus == 0
  {
    Inputs(OrDefault(saved.finalMealCost, 0), OrDefault(saved.finalMealShareRatio, 10), OrDefault(saved.otherBonus, 0))
  }

  /** `loadSettlementInputs`: a stored value that is not an object reads as
      `{}`, so every input takes its default. */
  function LoadedInputs(saved: Option<InputFields>): (inputs: Inputs)
    ensures saved.None? ==> inputs == Inputs(0, 10, 0)
  {
    match saved
    case None => ReadInputs(InputFields(NaN, NaN, NaN))
    case Some(v) => ReadInputs(v)
  }

  /** How `saveSettlementInputs` stores the inputs. */
  function Saved(inputs: Inputs): InputFields {
    InputFields(Int(inputs.mealCost), Int(inputs.shareRatio), Int(inputs.otherBonus))
  }

  /** Inputs the page has read are stored so that they read back unchanged:
      what `startSettlement` saves, `loadSettlementInputs` restores. */
  lemma SavedInputsReload(saved: InputFields)
    ensures LoadedInputs(Some(Saved(ReadInputs(saved)))) == ReadInputs(saved)
  {
  }

  /** `findIndex` by id: the first player with that id, or -1. */
  function FindIndex(players: seq<Player>, id: string): (i: int)
    ensures -1 <= i < |players|
    ensures i >= 0 ==> players[i].id == id && forall j :: 0 <= j < i ==> players[j].id != id
    ensures i == -1 ==> forall j :: 0 <= j < |players| ==> players[j].id != id
  {
    if players == [] then -1
    else if players[0].id == id then 0
    else var i := FindIndex(players[1..], id); if i == -1 then -1 else i + 1
  }

  /** The players with the first one of id `id` given the score `score`. */
  function WithScore(players: seq<Player>, id: string, score: int): seq<Player> {
    var i := FindIndex(players, id);
    if i == -1 then players else players[i := players[i].(currentScore := score)]
  }

  /** Setting a score changes the current score of the first player with
      that id and nothing else; an unknown id changes nothing. */
  lemma WithScoreChanges(players: seq<Player>, id: string, score: int)
    ensures |WithScore(players, id, score)| == |players|
    ensures forall j :: 0 <= j < |players| && players[j].id != id ==> WithScore(players, id, score)[j] == players[j]
    ensures (forall j :: 0 <= j < |players| ==> players[j].id != id) ==> WithScore(players, id, score) == players
    ensures (exists j :: 0 <= j < |players| && players[j].id == id) ==>
      var i := FindIndex(players, id);
      0 <= i < |players| &&
      WithScore(players, id, score)[i] == players[i].(currentScore := score) &&
      forall j :: 0 <= j < |players| && j != i ==> WithScore(players, id, score)[j] == players[j]
  {
  }

  /** Helper: the sum after one entry's value changes. */
  lemma {:induction false} SumOfUpdate(players: seq<Player>, i: nat, p: Player)
    requires i < |players|
    ensures TotalScore(players[i := p]) == TotalScore(players) - players[i].currentScore + p.currentScore
  {
    if i > 0 {
      assert players[i := p][1..] == players[1..][i - 1 := p];
      SumOfUpdate(players[1..], i - 1, p);
    }
  }

  /** Setting a score moves the total score by the difference. */
  lemma WithScoreTotal(players: seq<Player>, id: string, score: int)
    ensures var i := FindIndex(players, id);
      TotalScore(WithScore(players, id, score)) ==
        if i == -1 then TotalScore(players) else TotalScore(players) - players[i].currentScore + score
  {
    var i := FindIndex(players, id);
    if i != -1 {
      SumOfUpdate(players, i, players[i].(currentScore := score));
    }
  }

  /** The settlement `calculateSettlement` computes: the ledger is tallied
      by its one loop (`TallyKills`), then the engine runs on the snapshot. */
  method Calculate(config: GameConfig, players: seq<Player>, records: seq<BountyRecord>, inputs: Inputs)
    returns (s: Settlement, total: int)
    ensures s == SettlementOf(config, players, records, inputs)
    ensures total == TotalScore(players)
  {
    total := TotalScore(players);
    var killed, killer := TallyKills(records);
    var snap := Snapshot(config.entryFee, players, |records|, killed, killer,
                         ParseRatios(config.rewardRatios), ParseRatios(config.penaltyRatios), inputs);
    assert snap == SnapshotOf(config, players, records, inputs);
    s := Engine(snap);
  }

  /** The outcome of `startSettlement`. */
  datatype StartOutcome = Started | InvalidMealCost | InvalidShareRatio

  /** The state of the settlement page: the game, the stored players list,
      the game's players, the bounty ledger handed over by the game page,
      the stored inputs, the inputs in use and the last settlement. */
  class SettlementPage {
    var config: GameConfig
    var stored: seq<Player>
    var players: seq<Player>
    var bountyRecords: seq<BountyRecord>
    var savedInputs: Option<InputFields>
    var finalMealCost: int
    var finalMealShareRatio: int
    var otherBonus: int
    var totalScore: int
    var settlement: Settlement
    var showPreparation: bool

    /** The page as loaded: the game's players are those of the stored list
        with its id, and the inputs come from storage. The game page hands
        over its ledger and its running bounty pool; the pool (`|| 0`) is the
        only figure of the initial settlement that is not 0. */
    constructor (config: GameConfig, gameId: string, stored: seq<Player>, records: seq<BountyRecord>,
                 handedPool: Num, saved: Option<InputFields>)
      ensures this.config == config && this.stored == stored && this.bountyRecords == records
      ensures this.players == OfGame(stored, gameId) && this.savedInputs == saved
      ensures Inputs(finalMealCost, finalMealShareRatio, otherBonus) == LoadedInputs(saved)
      ensures totalScore == 0 && showPreparation
      ensures settlement == Settlement(0, OrDefault(handedPool, 0), 0, 0, 0, 0, 0, [], [])
    {
      this.config := config;
      this.stored := stored;
      this.players := OfGame(stored, gameId);
      this.bountyRecords := records;
      this.savedInputs := saved;
      var inputs := LoadedInputs(saved);
      finalMealCost, finalMealShareRatio, otherBonus := inputs.mealCost, inputs.shareRatio, inputs.otherBonus;
      totalScore := 0;
      settlement := Settlement(0, OrDefault(handedPool, 0), 0, 0, 0, 0, 0, [], []);
      showPreparation := true;
    }

    /** The inputs in use. */
    function CurrentInputs(): Inputs
      reads this
    {
      Inputs(finalMealCost, finalMealShareRatio, otherBonus)
    }

    /** `loadSettlementInputs` */
    method LoadSettlementInputs()
      modifies this
      ensures CurrentInputs() == LoadedInputs(savedInputs)
      ensures finalMealShareRatio != 0
      ensures config == old(config) && stored == old(stored) && players == old(players)
      ensures bountyRecords == old(bountyRecords) && savedInputs == old(savedInputs)
      ensures totalScore == old(totalScore) && settlement == old(settlement)
      ensures showPreparation == old(showPreparation)
    {
      var inputs := LoadedInputs(savedInputs);
      finalMealCost, finalMealShareRatio, otherBonus := inputs.mealCost, inputs.shareRatio, inputs.otherBonus;
    }

    /** `updatePlayerScore`: the new score is `parseInt(text) || 0`; it is
        written to the first stored player with that id and, when there is
        one, to the first of the game's players with that id. */
    method UpdatePlayerScore(playerId: string, text: string)
      modifies this
      ensures var score := OrDefault(ParseInt(text), 0);
        stored == WithScore(old(stored), playerId, score) &&
        players == if FindIndex(old(stored), playerId) == -1 then old(players)
                   else WithScore(old(players), playerId, score)
      ensures config == old(config) && bountyRecords == old(bountyRecords) && savedInputs == old(savedInputs)
      ensures CurrentInputs() == old(CurrentInputs())
      ensures totalScore == old(totalScore) && settlement == old(settlement)
      ensures showPreparation == old(showPreparation)
    {
      var score := OrDefault(ParseInt(text), 0);
      var playerIndex := FindIndex(stored, playerId);
      if playerIndex != -1 {
        stored := stored[playerIndex := stored[playerIndex].(currentScore := score)];
        var localIndex := FindIndex(players, playerId);
        if localIndex != -1 {
          players := players[localIndex := players[localIndex].(currentScore := score)];
        }
      }
    }

    /** `calculateSettlement`: tallies the ledger, then computes the
        settlement of the game's players and the total score. The bounty
        pool handed over by the game page is replaced by 200 per record. */
    method CalculateSettlement()
      modifies this
      ensures settlement == SettlementOf(config, players, bountyRecords, CurrentInputs())
      ensures settlement.bountyPool == RecordBounty * |bountyRecords|
      ensures totalScore == TotalScore(players)
      ensures config == old(config) && stored == old(stored) && players == old(players)
      ensures bountyRecords == old(bountyRecords) && savedInputs == old(savedInputs)
      ensures CurrentInputs() == old(CurrentInputs()) && showPreparation == old(showPreparation)
    {
      settlement, totalScore := Calculate(config, players, bountyRecords, CurrentInputs());
    }

    /** `startSettlement`, with the checks applied to the values read from
        the form: if they pass, the values are taken with their defaults,
        saved, and the settlement is computed. */
    method StartSettlement(form: InputFields) returns (outcome: StartOutcome)
      modifies this
      ensures (outcome, CurrentInputs()) == StartChecked(old(CurrentInputs()), form)
      ensures outcome != Started ==>
        savedInputs == old(savedInputs) && settlement == old(settlement) &&
        showPreparation == old(showPreparation) && totalScore == old(totalScore)
      ensures outcome == Started ==>
        savedInputs == Some(Saved(CurrentInputs())) && !showPreparation &&
        settlement == SettlementOf(config, players, bountyRecords, CurrentInputs()) &&
        totalScore == TotalScore(players)
      ensures config == old(config) && stored == old(stored) && players == old(players)
      ensures bountyRecords == old(bountyRecords)
    {
      var checked := StartChecked(CurrentInputs(), form);
      outcome := checked.0;
      var inputs := checked.1;
      if outcome != Started {
        return;
      }
      finalMealCost, finalMealShareRatio, otherBonus := inputs.mealCost, inputs.shareRatio, inputs.otherBonus;
      savedInputs := Some(Saved(inputs));
      showPreparation := false;
      CalculateSettlement();
    }
  }

  /** The checks `startSettlement` makes on a meal cost and share ratio. */
  function StartCheck(inputs: Inputs): (outcome: StartOutcome)
    ensures outcome == Started <==> inputs.mealCost >= 0 && 0 <= inputs.shareRatio <= 100
    ensures outcome == InvalidMealCost <==> inputs.mealCost < 0
  {
    if inputs.mealCost < 0 then InvalidMealCost
    else if inputs.shareRatio < 0 || inputs.shareRatio > 100 then InvalidShareRatio
    else Started
  }

  /** `startSettlement` as written: the checks look at the inputs in use
      before the form is read, and the form's values are then taken
      unchecked. */
  function StartAsWritten(current: Inputs, form: InputFields): (r: (StartOutcome, Inputs))
    ensures r.0 == StartCheck(current)
    ensures r.0 == Started ==> r.1 == ReadInputs(form)
    ensures r.0 != Started ==> r.1 == current
  {
    var outcome := StartCheck(current);
    (outcome, if outcome == Started then ReadInputs(form) else current)
  }

  /** As written, a negative meal cost typed into the form is accepted, and
      from then on every start is refused, whatever the form holds; since the
      value is saved, reloading the page does not clear it. */
  lemma StaleCheckLocksOut()
    ensures StartAsWritten(Inputs(0, 10, 0), InputFields(Int(-50), Int(10), Int(0))) == (Started, Inputs(-50, 10, 0))
    ensures forall form :: StartAsWritten(Inputs(-50, 10, 0), form) == (InvalidMealCost, Inputs(-50, 10, 0))
    ensures LoadedInputs(Some(Saved(Inputs(-50, 10, 0)))) == Inputs(-50, 10, 0)
  {
  }

  /** `startSettlement` with the checks applied to the values read from the
      form: a start succeeds exactly when those values are valid, whatever
      was in use before, and the inputs in use are then always valid. */
  function StartChecked(current: Inputs, form: InputFields): (r: (StartOutcome, Inputs))
    ensures r.0 == StartCheck(ReadInputs(form))
    ensures r.0 == Started ==> r.1 == ReadInputs(form) && r.1.mealCost >= 0 && 0 < r.1.shareRatio <= 100
    ensures r.0 != Started ==> r.1 == current
  {
    var inputs := ReadInputs(form);
    var outcome := StartCheck(inputs);
    (outcome, if outcome == Started then inputs else current)
  }
}
