/**
 * The run-statistics hook: clamped edits of `runStats` entries and of purchased-item counts,
 * which are written to `itemsPurchased` and `itemsPurchasedTotal` together.  The document type
 * guarantees `runStats`, `itemsPurchased` and `itemsPurchasedTotal`; the hook reads and writes
 * them without checking, so those are preconditions here.
 */
module RunStatsHook {
  import opened SaveGameModel

  const RunStatsCategory := "runStats"
  const ItemsPurchasedCategory := "itemsPurchased"
  const ItemsPurchasedTotalCategory := "itemsPurchasedTotal"

  /** The editable run statistics. */
  datatype RunStatKey = Level | Currency | TotalHaul | ChargingStationCharge
  {
    function Name(): string {
      match this
      case Level => "level"
      case Currency => "currency"
      case TotalHaul => "totalHaul"
      case ChargingStationCharge => "chargingStationCharge"
    }
  }

  /** The statistic is stored, as the document type promises. */
  predicate HasStat(categories: Categories, stat: RunStatKey) {
    RunStatsCategory in categories && stat.Name() in categories[RunStatsCategory]
  }

  /** Both item maps exist, and the item has a count in `itemsPurchased` (the panel only edits
      keys it found there). */
  predicate HasItem(categories: Categories, item: string) {
    && ItemsPurchasedCategory in categories && item in categories[ItemsPurchasedCategory]
    && ItemsPurchasedTotalCategory in categories
  }

  /** `Math.max(minValue, current + change)`. */
  function ClampedChange(current: int, change: int, minValue: int): (r: int)
    ensures r >= minValue && r >= current + change
    ensures r == minValue || r == current + change
  {
    if current + change < minValue then minValue else current + change
  }

  /** `updatePurchasedItemValue` on the categories: the same count into both item maps. */
  function ItemWritten(categories: Categories, item: string, newValue: int): Categories
    requires ItemsPurchasedCategory in categories && ItemsPurchasedTotalCategory in categories
  {
    WithValue(WithValue(categories, ItemsPurchasedCategory, item, newValue), ItemsPurchasedTotalCategory, item, newValue)
  }

  /** Both item maps read back the new count, and no other entry changes. */
  lemma {:induction false} ItemWrittenSpec(categories: Categories, item: string, newValue: int, category: string, key: string)
    requires ItemsPurchasedCategory in categories && ItemsPurchasedTotalCategory in categories
    ensures ValueOrZero(ItemWritten(categories, item, newValue), ItemsPurchasedCategory, item) == newValue
    ensures ValueOrZero(ItemWritten(categories, item, newValue), ItemsPurchasedTotalCategory, item) == newValue
    ensures (category, key) != (ItemsPurchasedCategory, item) && (category, key) != (ItemsPurchasedTotalCategory, item) ==>
      ValueOrZero(ItemWritten(categories, item, newValue), category, key) == ValueOrZero(categories, category, key)
    ensures ItemWritten(categories, item, newValue).Keys == categories.Keys
  {
    var once := WithValue(categories, ItemsPurchasedCategory, item, newValue);
    WithValueReadBack(categories, ItemsPurchasedCategory, item, newValue, category, key);
    WithValueReadBack(categories, ItemsPurchasedCategory, item, newValue, ItemsPurchasedTotalCategory, item);
    WithValueReadBack(once, ItemsPurchasedTotalCategory, item, newValue, category, key);
    WithValueReadBack(once, ItemsPurchasedTotalCategory, item, newValue, ItemsPurchasedCategory, item);
  }

  /** A statistic edit changes only that statistic, to the clamped sum, never below the floor. */
  lemma StatChangeSpec(categories: Categories, stat: RunStatKey, change: int, minValue: int, category: string, key: string)
    requires HasStat(categories, stat)
    ensures var current := categories[RunStatsCategory][stat.Name()];
      var r := WithValue(categories, RunStatsCategory, stat.Name(), ClampedChange(current, change, minValue));
      && HasStat(r, stat)
      && r[RunStatsCategory][stat.Name()] >= minValue
      && (current + change >= minValue ==> r[RunStatsCategory][stat.Name()] == current + change)
      && ((category, key) != (RunStatsCategory, stat.Name()) ==> ValueOrZero(r, category, key) == ValueOrZero(categories, category, key))
  {
    var current := categories[RunStatsCategory][stat.Name()];
    WithValueReadBack(categories, RunStatsCategory, stat.Name(), ClampedChange(current, change, minValue), category, key);
  }

  /** `getRunStatValue`: the stored value, untouched. */
  function GetRunStatValue(saveData: LiveSaveGame, stat: RunStatKey): (r: int)
    reads saveData.dictionaryOfDictionaries
    requires HasStat(saveData.dictionaryOfDictionaries.value, stat)
    ensures r == ValueOrZero(saveData.dictionaryOfDictionaries.value, RunStatsCategory, stat.Name())
  {
    saveData.dictionaryOfDictionaries.value[RunStatsCategory][stat.Name()]
  }

  /** `getItemPurchasedValue`: the stored `itemsPurchased` count, untouched. */
  function GetItemPurchasedValue(saveData: LiveSaveGame, item: string): (r: int)
    reads saveData.dictionaryOfDictionaries
    requires HasItem(saveData.dictionaryOfDictionaries.value, item)
    ensures r == ValueOrZero(saveData.dictionaryOfDictionaries.value, ItemsPurchasedCategory, item)
  {
    saveData.dictionaryOfDictionaries.value[ItemsPurchasedCategory][item]
  }

  /** `updateRunStatValue`; the notified copy shares the written dictionaries. */
  method UpdateRunStatValue(saveData: LiveSaveGame, stat: RunStatKey, newValue: int) returns (notified: LiveSaveGame)
    requires RunStatsCategory in saveData.dictionaryOfDictionaries.value
    modifies saveData.dictionaryOfDictionaries
    ensures saveData.dictionaryOfDictionaries.value
      == WithValue(old(saveData.dictionaryOfDictionaries.value), RunStatsCategory, stat.Name(), newValue)
    ensures notified == saveData
  {
    var updatedSaveData := saveData;
    var dictionaries := updatedSaveData.dictionaryOfDictionaries;
    dictionaries.value := dictionaries.value[RunStatsCategory := dictionaries.value[RunStatsCategory][stat.Name() := newValue]];
    notified := updatedSaveData;
  }

  /** `updatePurchasedItemValue`. */
  method UpdatePurchasedItemValue(saveData: LiveSaveGame, item: string, newValue: int) returns (notified: LiveSaveGame)
    requires ItemsPurchasedCategory in saveData.dictionaryOfDictionaries.value
    requires ItemsPurchasedTotalCategory in saveData.dictionaryOfDictionaries.value
    modifies saveData.dictionaryOfDictionaries
    ensures saveData.dictionaryOfDictionaries.value == ItemWritten(old(saveData.dictionaryOfDictionaries.value), item, newValue)
    ensures notified == saveData
  {
    var updatedSaveData := saveData;
    var dictionaries := updatedSaveData.dictionaryOfDictionaries;
    dictionaries.value := dictionaries.value[ItemsPurchasedCategory :=
      dictionaries.value[ItemsPurchasedCategory][item := newValue]];
    dictionaries.value := dictionaries.value[ItemsPurchasedTotalCategory :=
      dictionaries.value[ItemsPurchasedTotalCategory][item := newValue]];
    notified := updatedSaveData;
  }

  /** `handleStatChange`: the stored value plus `change`, raised to `minValue`. */
  method HandleStatChange(saveData: LiveSaveGame, stat: RunStatKey, change: int, minValue: int := 0)
    returns (notified: LiveSaveGame)
    requires HasStat(saveData.dictionaryOfDictionaries.value, stat)
    modifies saveData.dictionaryOfDictionaries
    ensures saveData.dictionaryOfDictionaries.value
      == WithValue(old(saveData.dictionaryOfDictionaries.value), RunStatsCategory, stat.Name(),
                   ClampedChange(old(saveData.dictionaryOfDictionaries.value[RunStatsCategory][stat.Name()]), change, minValue))
    ensures notified == saveData
  {
    var currentValue := saveData.dictionaryOfDictionaries.value[RunStatsCategory][stat.Name()];
    var newValue := if currentValue + change < minValue then minValue else currentValue + change;
    notified := UpdateRunStatValue(saveData, stat, newValue);
  }

  /** `handleItemsPurchasedChange`: clamped against `itemsPurchased`, written to both maps. */
  method HandleItemsPurchasedChange(saveData: LiveSaveGame, item: string, change: int, minValue: int := 0)
    returns (notified: LiveSaveGame)
    requires HasItem(saveData.dictionaryOfDictionaries.value, item)
    modifies saveData.dictionaryOfDictionaries
    ensures saveData.dictionaryOfDictionaries.value
      == ItemWritten(old(saveData.dictionaryOfDictionaries.value), item,
                     ClampedChange(old(saveData.dictionaryOfDictionaries.value[ItemsPurchasedCategory][item]), change, minValue))
    ensures notified == saveData
  {
    var currentValue := saveData.dictionaryOfDictionaries.value[ItemsPurchasedCategory][item];
    var newValue := if currentValue + change < minValue then minValue else currentValue + change;
    notified := UpdatePurchasedItemValue(saveData, item, newValue);
  }
}
