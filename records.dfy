/**
 * The records the two pages keep in local storage, with the fields the core
 * reads and writes. Timestamps are display-only and are not modelled; ids are
 * opaque strings handed in by the caller.
 */
module Records {

  datatype Option<T> = None | Some(value: T)

  datatype GameStatus = Active | Finished

  /** A game's configuration, fixed when the game is created. */
  datatype GameConfig = GameConfig(
    name: string,
    maxPlayers: int,
    entryFee: int,
    initialScore: int,
    bountyPerKill: int,
    maxBounty: int,
    rewardRatios: string,
    penaltyRatios: string)

  /** A stored game: its configuration, lifecycle and head count. */
  datatype Game = Game(id: string, config: GameConfig, status: GameStatus, playerCount: int)

  /** A player of one game, as `doAddPlayer` stores it. */
  datatype Player = Player(
    id: string,
    gameId: string,
    name: string,
    currentScore: int,
    entryFeePaid: int,
    additionalEntries: int,
    bountyEarned: int)

  /** One kill: who hunted whom, and the amount credited to the pool. */
  datatype BountyRecord = BountyRecord(id: string, killerPlayer: string, killedPlayer: string, amount: int)

  /** The players of one game: `allPlayers.filter(p => p.gameId === gameId)`,
      which both pages use to load their list. */
  function OfGame(players: seq<Player>, gameId: string): (r: seq<Player>)
    ensures |r| <= |players|
    ensures forall k :: 0 <= k < |r| ==> r[k].gameId == gameId && r[k] in players
    ensures forall p :: p in players && p.gameId == gameId ==> p in r
  {
    if players == [] then []
    else if players[0].gameId == gameId then [players[0]] + OfGame(players[1..], gameId)
    else OfGame(players[1..], gameId)
  }

  /** Filtering works element by element: a player stored after the others
      joins the game's list at its end exactly when it belongs to the game. */
  lemma {:induction false} OfGameAppend(players: seq<Player>, p: Player, gameId: string)
    ensures OfGame(players + [p], gameId) == OfGame(players, gameId) + (if p.gameId == gameId then [p] else [])
  {
    if players == [] {
      assert players + [p] == [p];
    } else {
      assert (players + [p])[1..] == players[1..] + [p];
      OfGameAppend(players[1..], p, gameId);
    }
  }
}
