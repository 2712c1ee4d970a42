/**
 * The purchased-items panel: one tile per `itemsPurchased` entry, titled with a cleaned-up
 * display name, whose clicks edit the item under its raw key.
 */
module PurchasedItemsPanel {
  import opened Wrappers
  import opened JsStrings
  import opened SaveGameModel
  import opened RunStatsHook

  const ItemPrefix := "Item "

  /** `key.replace('Item ', '').replaceAll('_', ' ')`. */
  function ItemDisplayName(key: string): (r: string)
    ensures '_' !in r
    ensures !Includes(key, ItemPrefix) && '_' !in key ==> r == key
  {
    var trimmed := Replace(key, ItemPrefix, "");
    var r := ReplaceAllChar(trimmed, '_', ' ');
    assert forall i | 0 <= i < |r| :: r[i] != '_';
    assert !Includes(key, ItemPrefix) && '_' !in key ==> forall i | 0 <= i < |r| :: r[i] == key[i];
    r
  }

  /** Only the first "Item " is removed; the text around it keeps any later "Item ", with
      underscores turned into spaces. */
  lemma ItemDisplayNameRemovesFirstOnly(key: string, i: nat)
    requires IndexOf(key, ItemPrefix, 0) == Some(i)
    ensures ItemDisplayName(key) == ReplaceAllChar(key[..i] + key[i + 5..], '_', ' ')
  {
  }

  /** A key made of "Item " and a name without "Item " or underscores shows as that name. */
  lemma {:induction false} ItemDisplayNameOfPrefixedKey(name: string)
    requires '_' !in name
    ensures ItemDisplayName(ItemPrefix + name) == name
  {
    var key := ItemPrefix + name;
    assert key[0..5] == ItemPrefix;
    assert IndexOf(key, ItemPrefix, 0) == Some(0);
    var r := ItemDisplayName(key);
    assert key[5..] == name;
    assert forall j | 0 <= j < |r| :: r[j] == name[j];
  }

  /** One item tile. */
  datatype ItemTile = ItemTile(key: string, titleKey: string, shown: int, decreaseDisabled: bool)

  function Tile(key: string, count: int): ItemTile {
    ItemTile(key, ItemDisplayName(key), count, count <= 0)
  }

  /** Clicks clamp at 0; an enabled decrease lowers by one; for counts of 0 or more the decrease
      is disabled exactly when it would change nothing; an increase adds one. */
  lemma TileSpec(key: string, count: int)
    ensures ClampedChange(count, -1, 0) >= 0 && ClampedChange(count, 1, 0) >= 0
    ensures !Tile(key, count).decreaseDisabled ==> ClampedChange(count, -1, 0) == count - 1
    ensures count >= 0 ==> (Tile(key, count).decreaseDisabled <==> ClampedChange(count, -1, 0) == count)
    ensures count >= 0 ==> ClampedChange(count, 1, 0) == count + 1
  {
  }

  /** The tiles, by raw key, for every purchased item. */
  function Tiles(itemsPurchased: Dictionary): (r: map<string, ItemTile>)
    ensures r.Keys == itemsPurchased.Keys
    ensures forall k | k in r :: r[k].key == k && r[k].shown == itemsPurchased[k] && '_' !in r[k].titleKey
  {
    map k | k in itemsPurchased :: Tile(k, itemsPurchased[k])
  }

  /** An item tile's `onIncrease`: the raw key, default floor 0, both item maps. */
  method OnIncrease(saveData: LiveSaveGame, key: string) returns (notified: LiveSaveGame)
    requires HasItem(saveData.dictionaryOfDictionaries.value, key)
    modifies saveData.dictionaryOfDictionaries
    ensures saveData.dictionaryOfDictionaries.value
      == ItemWritten(old(saveData.dictionaryOfDictionaries.value), key,
                     ClampedChange(old(saveData.dictionaryOfDictionaries.value[ItemsPurchasedCategory][key]), 1, 0))
    ensures notified == saveData
  {
    notified := HandleItemsPurchasedChange(saveData, key, 1);
  }

  /** An item tile's `onDecrease`. */
  method OnDecrease(saveData: LiveSaveGame, key: string) returns (notified: LiveSaveGame)
    requires HasItem(saveData.dictionaryOfDictionaries.value, key)
    modifies saveData.dictionaryOfDictionaries
    ensures saveData.dictionaryOfDictionaries.value
      == ItemWritten(old(saveData.dictionaryOfDictionaries.value), key,
                     ClampedChange(old(saveData.dictionaryOfDictionaries.value[ItemsPurchasedCategory][key]), -1, 0))
    ensures notified == saveData
  {
    notified := HandleItemsPurchasedChange(saveData, key, -1);
  }
}
