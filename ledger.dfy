/**
 * The bounty ledger of the game page (game.js, `confirmBounty` and
 * `deleteBountyRecord`): the list of kill records and the running bounty
 * pool, which a new record may not push past the game's `maxBounty`.
 *
 * The killer and the victim are chosen by their index in the game's player
 * list; the select values are read back with `parseInt`.
 */
module Bounties {
  import opened JsText
  import opened Records

  /** The ledger: the records in the order they were made, and the pool. */
  datatype Ledger = Ledger(records: seq<BountyRecord>, pool: int)

  /** What `confirmBounty` does with a request. */
  datatype BountyOutcome = SelfKill | InvalidPlayer | PoolFull | Recorded(amount: int)

  /** `Math.min(game.bountyPerKill, game.maxBounty - bountyPool)`: a kill is
      worth the configured bounty, cut down to what is left under the cap. */
  function BountyAmount(config: GameConfig, pool: int): (amount: int)
    ensures amount <= config.bountyPerKill && amount <= config.maxBounty - pool
    ensures amount == config.bountyPerKill || amount == config.maxBounty - pool
  {
    if config.bountyPerKill <= config.maxBounty - pool then config.bountyPerKill else config.maxBounty - pool
  }

  /** `players[index]` for a parsed select value: there is a player exactly
      for an integer index within the list. */
  function PlayerAt(players: seq<Player>, index: Num): (p: Option<Player>)
    ensures p.Some? <==> index.Int? && 0 <= index.value < |players|
    ensures p.Some? ==> p.value == players[index.value]
  {
    if index.Int? && 0 <= index.value < |players| then Some(players[index.value]) else None
  }

  /** The checks of `confirmBounty`, in order: the same index twice (`NaN` is
      never equal to itself), then an index with no player, then a pool with
      no room left. */
  function ConfirmOutcome(l: Ledger, players: seq<Player>, config: GameConfig,
                          killerIndex: Num, killedIndex: Num): (outcome: BountyOutcome)
    ensures outcome == SelfKill <==> killerIndex.Int? && killerIndex == killedIndex
    ensures outcome == InvalidPlayer <==>
      !(killerIndex.Int? && killerIndex == killedIndex) &&
      (PlayerAt(players, killerIndex).None? || PlayerAt(players, killedIndex).None?)
    ensures outcome.Recorded? <==>
      !(killerIndex.Int? && killerIndex == killedIndex) &&
      PlayerAt(players, killerIndex).Some? && PlayerAt(players, killedIndex).Some? &&
      BountyAmount(config, l.pool) > 0
    ensures outcome.Recorded? ==> outcome.amount == BountyAmount(config, l.pool)
  {
    if killerIndex.Int? && killerIndex == killedIndex then SelfKill
    else if PlayerAt(players, killerIndex).None? || PlayerAt(players, killedIndex).None? then InvalidPlayer
    else
      var amount := BountyAmount(config, l.pool);
      if amount > 0 then Recorded(amount) else PoolFull
  }

  /** The ledger after `confirmBounty`: a recorded kill appends one record
      naming the two players and raises the pool by its amount; any other
      outcome leaves the ledger as it was. */
  function Confirmed(l: Ledger, players: seq<Player>, config: GameConfig,
                     killerIndex: Num, killedIndex: Num, id: string): (r: Ledger)
    ensures var outcome := ConfirmOutcome(l, players, config, killerIndex, killedIndex);
      (!outcome.Recorded? ==> r == l) &&
      (outcome.Recorded? ==>
        r.records == l.records + [BountyRecord(id, players[killerIndex.value].name,
                                               players[killedIndex.value].name, outcome.amount)] &&
        r.pool == l.pool + outcome.amount)
  {
    match ConfirmOutcome(l, players, config, killerIndex, killedIndex)
    case Recorded(amount) =>
      var record := BountyRecord(id, players[killerIndex.value].name, players[killedIndex.value].name, amount);
      Ledger(l.records + [record], l.pool + amount)
    case _ => l
  }

  /** `findIndex` by record id: the first record with that id, or -1. */
  function FindRecord(records: seq<BountyRecord>, id: string): (i: int)
    ensures -1 <= i < |records|
    ensures i >= 0 ==> records[i].id == id && forall j :: 0 <= j < i ==> records[j].id != id
    ensures i == -1 ==> forall j :: 0 <= j < |records| ==> records[j].id != id
  {
    if records == [] then -1
    else if records[0].id == id then 0
    else var i := FindRecord(records[1..], id); if i == -1 then -1 else i + 1
  }

  /** The ledger after `deleteBountyRecord`: the first record with the id is
      spliced out, the others keep their order, and the pool drops by its
      amount but not below 0; an unknown id changes nothing. */
  function Deleted(l: Ledger, id: string): (r: Ledger)
    ensures FindRecord(l.records, id) != -1 ==> r.pool >= 0
    ensures FindRecord(l.records, id) == -1 ==> r == l
    ensures var i := FindRecord(l.records, id);
      i != -1 ==>
        r.records == l.records[..i] + l.records[i + 1..] &&
        r.pool == (if l.pool - l.records[i].amount > 0 then l.pool - l.records[i].amount else 0)
  {
    var i := FindRecord(l.records, id);
    if i == -1 then l
    else
      var pool := l.pool - l.records[i].amount;
      Ledger(l.records[..i] + l.records[i + 1..], if pool > 0 then pool else 0)
  }

  /** The amounts of a list of records, added up. */
  function Total(records: seq<BountyRecord>): int {
    if records == [] then 0 else records[0].amount + Total(records[1..])
  }

  /** The ledger the page maintains: every record holds a positive amount
      and the pool is their total. */
  predicate Consistent(l: Ledger) {
    l.pool == Total(l.records) && forall k :: 0 <= k < |l.records| ==> l.records[k].amount > 0
  }

  /** Helper: one more record adds its amount to the total. */
  lemma {:induction false} TotalAppend(records: seq<BountyRecord>, r: BountyRecord)
    ensures Total(records + [r]) == Total(records) + r.amount
  {
    if records == [] {
      assert records + [r] == [r];
    } else {
      assert (records + [r])[1..] == records[1..] + [r];
      TotalAppend(records[1..], r);
    }
  }

  /** Helper: the total splits at any point. */
  lemma {:induction false} TotalSplit(records: seq<BountyRecord>, i: nat)
    requires i <= |records|
    ensures Total(records) == Total(records[..i]) + Total(records[i..])
  {
    if i > 0 {
      TotalSplit(records[1..], i - 1);
      assert records[1..][..i - 1] == records[..i][1..];
      assert records[1..][i - 1..] == records[i..];
    } else {
      assert records[i..] == records;
    }
  }

  /** Helper: a total of positive amounts is not negative. */
  lemma {:induction false} TotalNonNegative(records: seq<BountyRecord>)
    requires forall k :: 0 <= k < |records| ==> records[k].amount > 0
    ensures Total(records) >= 0
  {
    if records != [] {
      TotalNonNegative(records[1..]);
    }
  }

  /** A pool within the cap stays within it: a record is only ever as large
      as the room left. */
  lemma ConfirmKeepsCap(l: Ledger, players: seq<Player>, config: GameConfig,
                        killerIndex: Num, killedIndex: Num, id: string)
    requires l.pool <= config.maxBounty
    ensures Confirmed(l, players, config, killerIndex, killedIndex, id).pool <= config.maxBounty
  {
  }

  /** A full pool takes no more records, whatever `bountyPerKill` is. */
  lemma FullPoolRejects(l: Ledger, players: seq<Player>, config: GameConfig,
                        killerIndex: Num, killedIndex: Num, id: string)
    requires l.pool >= config.maxBounty
    ensures !ConfirmOutcome(l, players, config, killerIndex, killedIndex).Recorded?
    ensures Confirmed(l, players, config, killerIndex, killedIndex, id) == l
  {
  }

  /** The self-kill check compares indices, not names: two players who share
      a name can be recorded as killing each other. */
  lemma SameNameKillRecorded(l: Ledger, players: seq<Player>, config: GameConfig, i: nat, j: nat, id: string)
    requires i < |players| && j < |players| && i != j && players[i].name == players[j].name
    requires BountyAmount(config, l.pool) > 0
    ensures var r := Confirmed(l, players, config, Int(i), Int(j), id);
      r.records == l.records + [BountyRecord(id, players[i].name, players[i].name, BountyAmount(config, l.pool))]
  {
  }

  /** Confirming keeps the ledger consistent. */
  lemma ConfirmConsistent(l: Ledger, players: seq<Player>, config: GameConfig,
                          killerIndex: Num, killedIndex: Num, id: string)
    requires Consistent(l)
    ensures Consistent(Confirmed(l, players, config, killerIndex, killedIndex, id))
  {
    var outcome := ConfirmOutcome(l, players, config, killerIndex, killedIndex);
    if outcome.Recorded? {
      var record := BountyRecord(id, players[killerIndex.value].name, players[killedIndex.value].name, outcome.amount);
      TotalAppend(l.records, record);
    }
  }

  /** In a consistent ledger the floor at 0 never applies: deleting a record
      takes exactly its amount off the pool, and the ledger stays
      consistent. */
  lemma DeleteConsistent(l: Ledger, id: string)
    requires Consistent(l)
    ensures var i := FindRecord(l.records, id);
      i != -1 ==> Deleted(l, id).pool == l.pool - l.records[i].amount
    ensures Consistent(Deleted(l, id))
  {
    var i := FindRecord(l.records, id);
    if i != -1 {
      var rest := l.records[..i] + l.records[i + 1..];
      TotalSplit(l.records, i);
      TotalSplit(l.records[i..], 1);
      assert l.records[i..][..1] == [l.records[i]];
      assert l.records[i..][1..] == l.records[i + 1..];
      TotalSplit(rest, i);
      assert rest[..i] == l.records[..i];
      assert rest[i..] == l.records[i + 1..];
      forall k | 0 <= k < |rest|
        ensures rest[k].amount > 0
      {
        if k < i {
          assert rest[k] == l.records[k];
        } else {
          assert rest[k] == l.records[k + 1];
        }
      }
      TotalNonNegative(rest);
    }
  }

  /** Helper: a record appended under a fresh id is the first with that id. */
  lemma {:induction false} FindAppended(records: seq<BountyRecord>, r: BountyRecord)
    requires forall k :: 0 <= k < |records| ==> records[k].id != r.id
    ensures FindRecord(records + [r], r.id) == |records|
  {
    if records != [] {
      assert (records + [r])[1..] == records[1..] + [r];
      FindAppended(records[1..], r);
    }
  }

  /** Deleting a record just confirmed under a fresh id restores the ledger. */
  lemma DeleteUndoesConfirm(l: Ledger, players: seq<Player>, config: GameConfig,
                            killerIndex: Num, killedIndex: Num, id: string)
    requires Consistent(l)
    requires forall k :: 0 <= k < |l.records| ==> l.records[k].id != id
    ensures Deleted(Confirmed(l, players, config, killerIndex, killedIndex, id), id) == l
  {
    var outcome := ConfirmOutcome(l, players, config, killerIndex, killedIndex);
    if outcome.Recorded? {
      var record := BountyRecord(id, players[killerIndex.value].name, players[killedIndex.value].name, outcome.amount);
      var grown := l.records + [record];
      FindAppended(l.records, record);
      assert grown[..|l.records|] == l.records;
      assert grown[|l.records| + 1..] == [];
      TotalNonNegative(l.records);
    } else {
      assert FindRecord(l.records, id) == -1;
    }
  }
}
