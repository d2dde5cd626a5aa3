/**
 * The game page (game.js): creating a game from the form, picking the
 * players who join it, adding players one at a time, and keeping the bounty
 * ledger while the game runs.
 *
 * The page's module variables are the fields of `GamePage`; the two
 * local-storage lists it reads and appends to (`games` and `players`) are
 * fields as well. Ids and timestamps come from the clock in the source and
 * are handed in by the caller here.
 */
module GamePage {
  import opened JsText
  import opened Records
  import opened Bounties
  import opened Selection
  import Settlement

  /** The create form's inputs, as typed. */
  datatype CreateForm = CreateForm(
    maxPlayers: string,
    entryFee: string,
    initialScore: string,
    bountyPerKill: string,
    maxBounty: string,
    rewardRatios: string,
    penaltyRatios: string)

  /** A form left untouched. */
  function BlankForm(): CreateForm {
    CreateForm("", "", "", "", "", "", "")
  }

  /** `游戏<n>`, the name given to the n-th game created. */
  function GameName(gameCount: nat): string {
    "游戏" + Decimal(gameCount + 1)
  }

  /** Games created one after another get different names. */
  lemma GameNamesDistinct(m: nat, n: nat)
    requires m != n
    ensures GameName(m) != GameName(n)
  {
    var prefix := "游戏";
    var a, b := Decimal(m + 1), Decimal(n + 1);
    assert a != b by {
      ParseIntDecimal(m + 1, []);
      ParseIntDecimal(n + 1, []);
      assert a + [] == a && b + [] == b;
    }
    assert (prefix + a)[|prefix|..] == a;
    assert (prefix + b)[|prefix|..] == b;
  }

  /** A numeric field of the create form: `parseInt(text) || d`. A number
      other than 0 is kept; anything else gives the default. */
  predicate ReadsAs(text: string, value: int, d: int) {
    (ParseInt(text).Int? && ParseInt(text).value != 0 ==> value == ParseInt(text).value) &&
    (ParseInt(text).NaN? || ParseInt(text).value == 0 ==> value == d)
  }

  /** The configuration `createGame` builds from the form, given how many
      games are already stored. No numeric field is ever 0, and the ratio
      texts are never empty. */
  function ConfigOf(gameCount: nat, form: CreateForm): (config: GameConfig)
    ensures config.name == GameName(gameCount)
    ensures ReadsAs(form.maxPlayers, config.maxPlayers, 5)
    ensures ReadsAs(form.entryFee, config.entryFee, 200)
    ensures ReadsAs(form.initialScore, config.initialScore, 2000)
    ensures ReadsAs(form.bountyPerKill, config.bountyPerKill, 100)
    ensures ReadsAs(form.maxBounty, config.maxBounty, 600)
    ensures config.maxPlayers != 0 && config.entryFee != 0 && config.initialScore != 0
    ensures config.bountyPerKill != 0 && config.maxBounty != 0
    ensures config.rewardRatios == (if form.rewardRatios == "" then "4:3:2:1" else form.rewardRatios)
    ensures config.penaltyRatios == (if form.penaltyRatios == "" then "2:3:5" else form.penaltyRatios)
    ensures config.rewardRatios != "" && config.penaltyRatios != ""
  {
    GameConfig(
      GameName(gameCount),
      OrDefault(ParseInt(form.maxPlayers), 5),
      OrDefault(ParseInt(form.entryFee), 200),
      OrDefault(ParseInt(form.initialScore), 2000),
      OrDefault(ParseInt(form.bountyPerKill), 100),
      OrDefault(ParseInt(form.maxBounty), 600),
      if form.rewardRatios == "" then "4:3:2:1" else form.rewardRatios,
      if form.penaltyRatios == "" then "2:3:5" else form.penaltyRatios)
  }

  /** An untouched form gives the documented defaults: five players, a 200
      entry fee, 2000 starting points, 100 per kill up to 600, and the
      ratios 4:3:2:1 and 2:3:5. */
  lemma DefaultConfig(gameCount: nat)
    ensures ConfigOf(gameCount, BlankForm()) ==
      GameConfig(GameName(gameCount), 5, 200, 2000, 100, 600, "4:3:2:1", "2:3:5")
  {
    assert ParseInt("") == NaN;
  }

  /** Positive numbers typed into the form are kept as typed. */
  lemma TypedConfig(gameCount: nat, maxPlayers: nat, entryFee: nat, initialScore: nat,
                    bountyPerKill: nat, maxBounty: nat, rewardRatios: string, penaltyRatios: string)
    requires maxPlayers > 0 && entryFee > 0 && initialScore > 0 && bountyPerKill > 0 && maxBounty > 0
    requires rewardRatios != "" && penaltyRatios != ""
    ensures ConfigOf(gameCount, CreateForm(Decimal(maxPlayers), Decimal(entryFee), Decimal(initialScore),
                                           Decimal(bountyPerKill), Decimal(maxBounty),
                                           rewardRatios, penaltyRatios)) ==
      GameConfig(GameName(gameCount), maxPlayers, entryFee, initialScore, bountyPerKill, maxBounty,
                 rewardRatios, penaltyRatios)
  {
    NumeralFacts(maxPlayers);
    NumeralFacts(entryFee);
    NumeralFacts(initialScore);
    NumeralFacts(bountyPerKill);
    NumeralFacts(maxBounty);
  }

  /** The game record `createGame` stores: active, with no players counted. */
  function NewGame(id: string, config: GameConfig): Game {
    Game(id, config, Active, 0)
  }

  /** The player record `doAddPlayer` stores: the game's starting points, one
      entry fee paid, no extra entries and no bounty. */
  function NewPlayer(id: string, gameId: string, name: string, config: GameConfig): Player {
    Player(id, gameId, name, config.initialScore, config.entryFee, 0, 0)
  }

  /** The records `confirmPlayerSelection` stores, one per selected name, in
      order, each under the id handed in beside it. */
  function NewPlayers(gameId: string, names: seq<string>, ids: seq<string>, config: GameConfig): (r: seq<Player>)
    requires |names| == |ids|
    ensures |r| == |names|
    ensures forall k :: 0 <= k < |r| ==> r[k] == NewPlayer(ids[k], gameId, names[k], config)
  {
    if names == [] then []
    else
      var n := |names| - 1;
      NewPlayers(gameId, names[..n], ids[..n], config) + [NewPlayer(ids[n], gameId, names[n], config)]
  }

  /** Players stored under a game join that game's list at its end, in
      order. */
  lemma {:induction false} OfGameJoined(stored: seq<Player>, added: seq<Player>, gameId: string)
    requires forall k :: 0 <= k < |added| ==> added[k].gameId == gameId
    ensures OfGame(stored + added, gameId) == OfGame(stored, gameId) + added
  {
    if added == [] {
      assert stored + added == stored;
    } else {
      var n := |added| - 1;
      var front, last := added[..n], added[n];
      assert added == front + [last];
      assert stored + added == (stored + front) + [last];
      OfGameJoined(stored, front, gameId);
      OfGameAppend(stored + front, last, gameId);
      assert OfGame(stored, gameId) + front + [last] == OfGame(stored, gameId) + added;
    }
  }

  /** A fresh game's players hold `initialScore` points each, so the total the
      settlement page starts from is the head count times the starting
      points. */
  lemma {:induction false} NewPlayersTotal(gameId: string, names: seq<string>, ids: seq<string>, config: GameConfig)
    requires |names| == |ids|
    ensures Settlement.TotalScore(NewPlayers(gameId, names, ids, config)) == |names| * config.initialScore
  {
    if names != [] {
      var n := |names| - 1;
      var front := NewPlayers(gameId, names[..n], ids[..n], config);
      var p := NewPlayer(ids[n], gameId, names[n], config);
      NewPlayersTotal(gameId, names[..n], ids[..n], config);
      TotalScoreAppend(front, p);
    }
  }

  /** Helper: one more player adds its points to the total. */
  lemma {:induction false} TotalScoreAppend(players: seq<Player>, p: Player)
    ensures Settlement.TotalScore(players + [p]) == Settlement.TotalScore(players) + p.currentScore
  {
    if players == [] {
      assert players + [p] == [p];
    } else {
      assert (players + [p])[1..] == players[1..] + [p];
      TotalScoreAppend(players[1..], p);
    }
  }

  /** `updateGameInfo`: the add-player button shows while the game has room. */
  predicate AddPlayerOffered(count: int, config: GameConfig) {
    count < config.maxPlayers
  }

  /** `updateGameInfo`: the settle button shows from three players on. */
  predicate SettleOffered(count: int) {
    count >= 3
  }

  /** `confirmPlayerSelection` does not look at `maxPlayers`: confirming the
      six regulars into a game made from an untouched form leaves it with more
      players than its maximum, so the add-player button is hidden and the
      settle button shown. */
  lemma DefaultSelectionOverfills(gameCount: nat, ids: seq<string>)
    requires |ids| == |Selected(DefaultCandidates(), [])|
    ensures var config := ConfigOf(gameCount, BlankForm());
      var joined := NewPlayers(ids[0], Selected(DefaultCandidates(), []), ids, config);
      |joined| == 6 && |joined| > config.maxPlayers &&
      !AddPlayerOffered(|joined|, config) && SettleOffered(|joined|)
  {
    DefaultConfig(gameCount);
    DefaultSelection();
  }

  /** Neither `doAddPlayer` nor `confirmPlayerSelection` looks at
      `maxPlayers`: whatever the configuration, every name added joins the
      game's list, and `updateGameInfo` then offers the add-player button
      exactly while the new count is below the maximum and the settle button
      from three players on. A selection larger than the room left overfills
      the game. */
  lemma JoinIgnoresCapacity(stored: seq<Player>, gameId: string, names: seq<string>, ids: seq<string>,
                            config: GameConfig)
    requires |names| == |ids|
    ensures var before := |OfGame(stored, gameId)|;
      var after := |OfGame(stored + NewPlayers(gameId, names, ids, config), gameId)|;
      after == before + |names| &&
      (AddPlayerOffered(after, config) <==> before + |names| < config.maxPlayers) &&
      (SettleOffered(after) <==> before + |names| >= 3) &&
      (before + |names| > config.maxPlayers ==> after > config.maxPlayers)
  {
    OfGameJoined(stored, NewPlayers(gameId, names, ids, config), gameId);
  }

  /** The page's state. Each method names in its `modifies` clause the
      fields it may change; every other field keeps its value. */
  class GamePage {
    /** The stored `games` list. */
    var games: seq<Game>
    /** The stored `players` list, all games together. */
    var stored: seq<Player>
    var gameId: string
    var game: Option<Game>
    /** The players of the current game. */
    var players: seq<Player>
    var bountyRecords: seq<BountyRecord>
    var bountyPool: int
    var defaultPlayers: seq<Candidate>
    var customPlayers: seq<Candidate>

    /** The ledger the two bounty fields make up. */
    function CurrentLedger(): Ledger
      reads this
    {
      Ledger(bountyRecords, bountyPool)
    }

    /** A page opened over the stored lists, before any game is chosen. */
    constructor(games: seq<Game>, stored: seq<Player>)
      ensures this.games == games && this.stored == stored
      ensures gameId == "" && game == None && players == []
      ensures bountyRecords == [] && bountyPool == 0
      ensures defaultPlayers == DefaultCandidates() && customPlayers == []
    {
      this.games := games;
      this.stored := stored;
      gameId := "";
      game := None;
      players := [];
      bountyRecords := [];
      bountyPool := 0;
      defaultPlayers := DefaultCandidates();
      customPlayers := [];
    }

    /** `createGame`: the configuration read from the form is stored as a new
        active game, which becomes the current game. */
    method CreateGame(form: CreateForm, id: string)
      modifies this`games, this`gameId, this`game
      ensures var g := NewGame(id, ConfigOf(|old(games)|, form));
        games == old(games) + [g] && gameId == id && game == Some(g)
    {
      var g := NewGame(id, ConfigOf(|games|, form));
      games := games + [g];
      gameId := id;
      game := Some(g);
    }

    /** `togglePlayerSelection(index)` */
    method TogglePlayerSelection(index: nat)
      requires index < |defaultPlayers|
      modifies this`defaultPlayers
      ensures defaultPlayers == Toggled(old(defaultPlayers), index)
    {
      defaultPlayers := Toggled(defaultPlayers, index);
    }

    /** `toggleCustomPlayerSelection(index)` */
    method ToggleCustomPlayerSelection(index: nat)
      requires index < |customPlayers|
      modifies this`customPlayers
      ensures customPlayers == Toggled(old(customPlayers), index)
    {
      customPlayers := Toggled(customPlayers, index);
    }

    /** `addCustomPlayer`: a new name is appended to the custom list,
        selected; an empty or taken name is refused. The names of the two
        lists stay pairwise distinct. */
    method AddCustomPlayer(input: string) returns (outcome: AddOutcome)
      modifies this`customPlayers
      ensures outcome == AddOutcomeOf(defaultPlayers, old(customPlayers), input)
      ensures customPlayers == WithCustom(defaultPlayers, old(customPlayers), input)
      ensures Distinct(NamesOf(defaultPlayers) + NamesOf(old(customPlayers))) ==>
        Distinct(NamesOf(defaultPlayers) + NamesOf(customPlayers))
    {
      outcome := AddOutcomeOf(defaultPlayers, customPlayers, input);
      if Distinct(NamesOf(defaultPlayers) + NamesOf(customPlayers)) {
        AddKeepsDistinct(defaultPlayers, customPlayers, input);
      }
      customPlayers := WithCustom(defaultPlayers, customPlayers, input);
    }

    /** `doAddPlayer(name)`: a player record for the current game is stored
        and the game's list is filtered again, which leaves it one player
        longer. No check for a full game or a repeated name is made. */
    method DoAddPlayer(name: string, id: string)
      requires game.Some?
      modifies this`stored, this`players
      ensures var p := NewPlayer(id, gameId, name, game.value.config);
        stored == old(stored) + [p] &&
        (old(players) == OfGame(old(stored), gameId) ==> players == old(players) + [p])
      ensures players == OfGame(stored, gameId)
    {
      var p := NewPlayer(id, gameId, name, game.value.config);
      OfGameAppend(stored, p, gameId);
      stored := stored + [p];
      players := OfGame(stored, gameId);
    }

    /** `addPlayer`: the prompt's answer is trimmed and added as a player
        unless it was cancelled or blank. A cancelled or blank answer is
        turned away before the game is looked at. */
    method AddPlayer(answer: Option<string>, id: string)
      requires game.Some? || !(answer.Some? && Trim(answer.value) != "")
      modifies this`stored, this`players
      ensures answer.Some? && Trim(answer.value) != "" ==>
        stored == old(stored) + [NewPlayer(id, gameId, Trim(answer.value), game.value.config)] &&
        players == OfGame(stored, gameId)
      ensures !(answer.Some? && Trim(answer.value) != "") ==> stored == old(stored) && players == old(players)
    {
      if answer.Some? && Trim(answer.value) != "" {
        DoAddPlayer(Trim(answer.value), id);
      }
    }

    /** The `forEach` of `confirmPlayerSelection`: each name in turn is added
        as a player, under the id beside it. */
    method AddEach(names: seq<string>, ids: seq<string>)
      requires game.Some? && |names| == |ids| && names != []
      modifies this`stored, this`players
      ensures stored == old(stored) + NewPlayers(gameId, names, ids, game.value.config)
      ensures players == OfGame(stored, gameId)
    {
      ghost var config := game.value.config;
      assert names[..0] == [] && ids[..0] == [];
      var k := 0;
      while k < |names|
        invariant 0 <= k <= |names|
        invariant stored == old(stored) + NewPlayers(gameId, names[..k], ids[..k], config)
        invariant k > 0 ==> players == OfGame(stored, gameId)
      {
        DoAddPlayer(names[k], ids[k]);
        assert names[..k + 1][..k] == names[..k];
        assert ids[..k + 1][..k] == ids[..k];
        k := k + 1;
      }
      assert names[..k] == names && ids[..k] == ids;
    }

    /** `confirmPlayerSelection`: every selected name, defaults first, is
        added as a player of the current game, each under the id beside it;
        with nothing selected the page refuses and nothing is stored. When the
        game's list was loaded from the stored players, the new players join
        it at its end, in order. */
    method ConfirmPlayerSelection(ids: seq<string>) returns (confirmed: bool)
      requires game.Some? || Selected(defaultPlayers, customPlayers) == []
      requires |ids| == |Selected(defaultPlayers, customPlayers)|
      modifies this`stored, this`players
      ensures confirmed <==> Selected(defaultPlayers, customPlayers) != []
      ensures !confirmed ==> stored == old(stored) && players == old(players)
      ensures confirmed ==>
        var added := NewPlayers(gameId, Selected(defaultPlayers, customPlayers), ids, game.value.config);
        stored == old(stored) + added &&
        (old(players) == OfGame(old(stored), gameId) ==> players == old(players) + added) &&
        players == OfGame(stored, gameId)
    {
      var names := Selected(defaultPlayers, customPlayers);
      if names == [] {
        return false;
      }
      ghost var added := NewPlayers(gameId, names, ids, game.value.config);
      AddEach(names, ids);
      OfGameJoined(old(stored), added, gameId);
      confirmed := true;
    }

    /** `confirmBounty`: the two select values are checked and a kill is
        recorded in the ledger, worth at most what is left under the cap.
        A consistent ledger stays consistent and a pool within the cap stays
        within it. */
    method ConfirmBounty(killerIndex: Num, killedIndex: Num, id: string) returns (outcome: BountyOutcome)
      requires game.Some? || players == []
      modifies this`bountyRecords, this`bountyPool
      ensures game.None? ==>
        outcome == (if killerIndex.Int? && killerIndex == killedIndex then SelfKill else InvalidPlayer) &&
        CurrentLedger() == old(CurrentLedger())
      ensures game.Some? ==>
        outcome == ConfirmOutcome(old(CurrentLedger()), players, game.value.config, killerIndex, killedIndex) &&
        CurrentLedger() == Confirmed(old(CurrentLedger()), players, game.value.config, killerIndex, killedIndex, id)
      ensures Consistent(old(CurrentLedger())) ==> Consistent(CurrentLedger())
      ensures game.Some? && old(bountyPool) <= game.value.config.maxBounty ==> bountyPool <= game.value.config.maxBounty
    {
      if game.None? {
        // With no game the list is empty, so no index names a player.
        outcome := if killerIndex.Int? && killerIndex == killedIndex then SelfKill else InvalidPlayer;
        return;
      }
      var config := game.value.config;
      var l := CurrentLedger();
      outcome := ConfirmOutcome(l, players, config, killerIndex, killedIndex);
      if Consistent(l) {
        ConfirmConsistent(l, players, config, killerIndex, killedIndex, id);
      }
      if l.pool <= config.maxBounty {
        ConfirmKeepsCap(l, players, config, killerIndex, killedIndex, id);
      }
      var r := Confirmed(l, players, config, killerIndex, killedIndex, id);
      bountyRecords, bountyPool := r.records, r.pool;
    }

    /** `deleteBountyRecord(id)`, once confirmed: the record is removed and
        the pool reduced by its amount. In a consistent ledger the pool is
        reduced by exactly that amount and the ledger stays consistent. */
    method DeleteBountyRecord(id: string)
      modifies this`bountyRecords, this`bountyPool
      ensures CurrentLedger() == Deleted(old(CurrentLedger()), id)
      ensures Consistent(old(CurrentLedger())) ==> Consistent(CurrentLedger())
    {
      var l := CurrentLedger();
      if Consistent(l) {
        DeleteConsistent(l, id);
      }
      var r := Deleted(l, id);
      bountyRecords, bountyPool := r.records, r.pool;
    }
  }
}
