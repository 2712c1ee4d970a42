/**
 * The save document.  `SaveGame` is the document as a value (what `JSON.parse` yields, what
 * `JSON.stringify` compares and what the history stores).  `LiveSaveGame` is the document the
 * editor holds and edits: its top level is a record that spreads (`{ ...saveData }`) copy,
 * while `dictionaryOfDictionaries` is an object on the heap that every such copy shares, so a
 * write through one copy is seen through all of them.
 */
module SaveGameModel {
  import opened Wrappers

  /** The serializer's `{ "__type": tag, "value": value }` wrapper. */
  datatype Typed<T> = Typed(typeTag: string, value: T)

  /** A flat numeric dictionary, `{ [key: string]: number }`, keyed by player ID, item name or
      run statistic. */
  type Dictionary = map<string, int>

  /** `dictionaryOfDictionaries.value`: category name to dictionary.  `playerUpgradeCrouchRest`
      and `playerUpgradeTumbleWings` may be missing, and any other category may be too. */
  type Categories = map<string, Dictionary>

  datatype SaveGame = SaveGame(
    dictionaryOfDictionaries: Typed<Categories>,
    playerNames: Typed<map<string, string>>,
    timePlayed: Typed<int>,
    dateAndTime: Typed<string>,
    teamName: Typed<string>)

  /** The `dictionaryOfDictionaries` object, whose nested dictionaries are written in place. */
  class DictionaryOfDictionaries {
    const typeTag: string
    var value: Categories

    constructor (typeTag: string, value: Categories)
      ensures this.typeTag == typeTag && this.value == value
    {
      this.typeTag := typeTag;
      this.value := value;
    }
  }

  datatype LiveSaveGame = LiveSaveGame(
    dictionaryOfDictionaries: DictionaryOfDictionaries,
    playerNames: Typed<map<string, string>>,
    timePlayed: Typed<int>,
    dateAndTime: Typed<string>,
    teamName: Typed<string>)
  {
    /** The document as a value, as `JSON.stringify` sees it (key order aside). */
    function View(): SaveGame
      reads dictionaryOfDictionaries
    {
      SaveGame(Typed(dictionaryOfDictionaries.typeTag, dictionaryOfDictionaries.value),
               playerNames, timePlayed, dateAndTime, teamName)
    }
  }

  /** `structuredClone`: a document equal to `v` whose nested objects are all new. */
  method StructuredClone(v: SaveGame) returns (g: LiveSaveGame)
    ensures fresh(g.dictionaryOfDictionaries)
    ensures g.View() == v
  {
    var dictionaries := new DictionaryOfDictionaries(v.dictionaryOfDictionaries.typeTag,
                                                     v.dictionaryOfDictionaries.value);
    g := LiveSaveGame(dictionaries, v.playerNames, v.timePlayed, v.dateAndTime, v.teamName);
  }

  /** `value[category]?.[key] ?? 0`: a missing category or key reads as 0. */
  function ValueOrZero(categories: Categories, category: string, key: string): (r: int)
    ensures category !in categories || key !in categories[category] ==> r == 0
    ensures category in categories && key in categories[category] ==> r == categories[category][key]
  {
    if category !in categories then 0
    else if key in categories[category] then categories[category][key]
    else 0
  }

  /** `value[category][key] = v` on an existing category. */
  function WithValue(categories: Categories, category: string, key: string, v: int): (r: Categories)
    requires category in categories
    ensures r.Keys == categories.Keys
    ensures r[category].Keys == categories[category].Keys + {key}
  {
    categories[category := categories[category][key := v]]
  }

  /** After a write, the written entry reads back as the new value, and every other entry
      (other keys of that category, every other category) reads as before. */
  lemma WithValueReadBack(categories: Categories, category: string, key: string, v: int,
                          otherCategory: string, otherKey: string)
    requires category in categories
    ensures ValueOrZero(WithValue(categories, category, key, v), category, key) == v
    ensures (otherCategory, otherKey) != (category, key) ==>
      ValueOrZero(WithValue(categories, category, key, v), otherCategory, otherKey)
        == ValueOrZero(categories, otherCategory, otherKey)
    ensures otherCategory != category && otherCategory in categories ==>
      WithValue(categories, category, key, v)[otherCategory] == categories[otherCategory]
  {
  }

  /** Writing the value already stored changes nothing. */
  lemma WithStoredValue(categories: Categories, category: string, key: string)
    requires category in categories && key in categories[category]
    ensures WithValue(categories, category, key, categories[category][key]) == categories
  {
    var r := WithValue(categories, category, key, categories[category][key]);
    assert r[category] == categories[category];
  }
}
