/**
 * The run-statistics panel: four `StatsItem` tiles over `runStats`, each with its own floor,
 * and the forwarding of time-played edits to the save-game hook.
 */
module RunStatsPanel {
  import opened SaveGameModel
  import opened RunStatsHook
  import SaveGameHook

  /** The floor every click on the tile clamps to: 1 for the level, 0 for the others. */
  function Floor(stat: RunStatKey): int {
    if stat == Level then 1 else 0
  }

  /** One `StatsItem` tile. */
  datatype StatTile = StatTile(titleKey: string, stat: RunStatKey, shown: int, decreaseDisabled: bool)

  function TitleKey(stat: RunStatKey): string {
    match stat
    case Level => "level"
    case Currency => "currency"
    case TotalHaul => "total_haul"
    case ChargingStationCharge => "charging_station"
  }

  /** The tile for a stored value: the level is shown one higher than stored. */
  function Tile(stat: RunStatKey, stored: int): StatTile {
    var shown := if stat == Level then stored + 1 else stored;
    var disabled := if stat == Level then stored <= 1 else stored <= 0;
    StatTile(TitleKey(stat), stat, shown, disabled)
  }

  /** The four tiles in display order. */
  function Tiles(runStats: Dictionary): (r: seq<StatTile>)
    requires forall stat: RunStatKey :: stat.Name() in runStats
    ensures |r| == 4
    ensures forall i | 0 <= i < 4 :: r[i] == Tile(r[i].stat, runStats[r[i].stat.Name()])
    ensures [r[0].stat, r[1].stat, r[2].stat, r[3].stat] == [Level, Currency, TotalHaul, ChargingStationCharge]
  {
    var level := Tile(Level, runStats[Level.Name()]);
    var currency := Tile(Currency, runStats[Currency.Name()]);
    var haul := Tile(TotalHaul, runStats[TotalHaul.Name()]);
    var charge := Tile(ChargingStationCharge, runStats[ChargingStationCharge.Name()]);
    [level, currency, haul, charge]
  }

  /** What a tile shows and when its decrease is disabled, and what its clicks write: the level
      is shown as stored + 1; a click never writes below the floor; an enabled decrease lowers
      by exactly one; for values at or above the floor, decrease is disabled exactly when it
      would not change the value; an increase from any value at or above the floor adds one. */
  lemma TileSpec(stat: RunStatKey, stored: int)
    ensures Tile(stat, stored).shown == if stat == Level then stored + 1 else stored
    ensures ClampedChange(stored, 1, Floor(stat)) >= Floor(stat)
    ensures ClampedChange(stored, -1, Floor(stat)) >= Floor(stat)
    ensures Tile(stat, stored).decreaseDisabled <==> stored <= Floor(stat)
    ensures !Tile(stat, stored).decreaseDisabled ==> ClampedChange(stored, -1, Floor(stat)) == stored - 1
    ensures stored >= Floor(stat) ==>
      (Tile(stat, stored).decreaseDisabled <==> ClampedChange(stored, -1, Floor(stat)) == stored)
    ensures stored >= Floor(stat) ==> ClampedChange(stored, 1, Floor(stat)) == stored + 1
  {
  }

  /** After any click on the level tile the displayed level is at least 2. */
  lemma LevelClickShowsAtLeastTwo(stored: int, change: int)
    ensures Tile(Level, ClampedChange(stored, change, Floor(Level))).shown >= 2
  {
  }

  /** A tile's `onIncrease`. */
  method OnIncrease(saveData: LiveSaveGame, stat: RunStatKey) returns (notified: LiveSaveGame)
    requires HasStat(saveData.dictionaryOfDictionaries.value, stat)
    modifies saveData.dictionaryOfDictionaries
    ensures saveData.dictionaryOfDictionaries.value
      == WithValue(old(saveData.dictionaryOfDictionaries.value), RunStatsCategory, stat.Name(),
                   ClampedChange(old(saveData.dictionaryOfDictionaries.value[RunStatsCategory][stat.Name()]), 1, Floor(stat)))
    ensures notified == saveData
  {
    if stat == Level {
      notified := HandleStatChange(saveData, stat, 1, 1);
    } else {
      notified := HandleStatChange(saveData, stat, 1);
    }
  }

  /** A tile's `onDecrease`. */
  method OnDecrease(saveData: LiveSaveGame, stat: RunStatKey) returns (notified: LiveSaveGame)
    requires HasStat(saveData.dictionaryOfDictionaries.value, stat)
    modifies saveData.dictionaryOfDictionaries
    ensures saveData.dictionaryOfDictionaries.value
      == WithValue(old(saveData.dictionaryOfDictionaries.value), RunStatsCategory, stat.Name(),
                   ClampedChange(old(saveData.dictionaryOfDictionaries.value[RunStatsCategory][stat.Name()]), -1, Floor(stat)))
    ensures notified == saveData
  {
    if stat == Level {
      notified := HandleStatChange(saveData, stat, -1, 1);
    } else {
      notified := HandleStatChange(saveData, stat, -1);
    }
  }

  /** `handleTimePlayedChange`: the edited time goes to the hook as it is, unclamped. */
  function HandleTimePlayedChange(saveGame: LiveSaveGame, newTimePlayed: int): (r: LiveSaveGame)
    ensures r.timePlayed.value == newTimePlayed
    ensures r.dictionaryOfDictionaries == saveGame.dictionaryOfDictionaries
    ensures r == saveGame.(timePlayed := r.timePlayed)
  {
    SaveGameHook.UpdateTimePlayed(saveGame, newTimePlayed)
  }
}
