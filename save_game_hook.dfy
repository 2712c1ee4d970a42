/**
 * The save-game hook: replacing the time played, and removing a player from a clone of the
 * document.
 */
module SaveGameHook {
  import opened SaveGameModel

  /** `updateTimePlayed`: a new top level with the new `timePlayed.value`; the `__type` tag,
      every other field, and the shared nested dictionaries are kept. */
  function UpdateTimePlayed(saveGame: LiveSaveGame, newTimePlayed: int): (r: LiveSaveGame)
    ensures r.timePlayed.value == newTimePlayed && r.timePlayed.typeTag == saveGame.timePlayed.typeTag
    ensures r.dictionaryOfDictionaries == saveGame.dictionaryOfDictionaries
    ensures r.playerNames == saveGame.playerNames
    ensures r.dateAndTime == saveGame.dateAndTime && r.teamName == saveGame.teamName
  {
    saveGame.(timePlayed := saveGame.timePlayed.(value := newTimePlayed))
  }

  /** The last time written wins. */
  lemma UpdateTimePlayedOverwrites(saveGame: LiveSaveGame, first: int, second: int)
    ensures UpdateTimePlayed(UpdateTimePlayed(saveGame, first), second) == UpdateTimePlayed(saveGame, second)
  {
  }

  /** Writing back the stored time gives the same document. */
  lemma UpdateTimePlayedSameValue(saveGame: LiveSaveGame)
    ensures UpdateTimePlayed(saveGame, saveGame.timePlayed.value) == saveGame
  {
  }

  /** `key.startsWith('player')`. */
  predicate IsPlayerCategory(key: string) {
    |key| >= 6 && key[..6] == "player"
  }

  /** The categories with `playerId` deleted from every `player…` category. */
  function WithoutPlayerEntries(categories: Categories, playerId: string): Categories {
    map c | c in categories :: if IsPlayerCategory(c) then categories[c] - {playerId} else categories[c]
  }

  /** The document `removePlayer` hands on, as a function of the document it was given. */
  function PlayerRemoved(doc: SaveGame, playerId: string): SaveGame {
    doc.(playerNames := doc.playerNames.(value := doc.playerNames.value - {playerId}),
         dictionaryOfDictionaries := doc.dictionaryOfDictionaries.(
           value := WithoutPlayerEntries(doc.dictionaryOfDictionaries.value, playerId)))
  }

  /** Removal deletes the player from the names and from every `player…` category (including
      `playerHasCrown`), keeps every other player's entries and every other category as they
      were, and leaves the time, date, team name and type tags alone. */
  lemma PlayerRemovedSpec(doc: SaveGame, playerId: string, category: string, key: string)
    ensures var r := PlayerRemoved(doc, playerId);
      && playerId !in r.playerNames.value
      && r.dictionaryOfDictionaries.value.Keys == doc.dictionaryOfDictionaries.value.Keys
      && (category in doc.dictionaryOfDictionaries.value && IsPlayerCategory(category) ==>
            playerId !in r.dictionaryOfDictionaries.value[category])
      && (category in doc.dictionaryOfDictionaries.value && !IsPlayerCategory(category) ==>
            r.dictionaryOfDictionaries.value[category] == doc.dictionaryOfDictionaries.value[category])
      && (key != playerId ==>
            ValueOrZero(r.dictionaryOfDictionaries.value, category, key)
              == ValueOrZero(doc.dictionaryOfDictionaries.value, category, key)
            && (category in doc.dictionaryOfDictionaries.value ==>
                  (key in r.dictionaryOfDictionaries.value[category] <==> key in doc.dictionaryOfDictionaries.value[category]))
            && (key in r.playerNames.value <==> key in doc.playerNames.value)
            && (key in doc.playerNames.value ==> r.playerNames.value[key] == doc.playerNames.value[key]))
      && r.timePlayed == doc.timePlayed && r.dateAndTime == doc.dateAndTime && r.teamName == doc.teamName
      && r.playerNames.typeTag == doc.playerNames.typeTag
      && r.dictionaryOfDictionaries.typeTag == doc.dictionaryOfDictionaries.typeTag
  {
  }

  /** Removing the same player twice is the same as removing it once. */
  lemma {:induction false} PlayerRemovedIdempotent(doc: SaveGame, playerId: string)
    ensures PlayerRemoved(PlayerRemoved(doc, playerId), playerId) == PlayerRemoved(doc, playerId)
  {
    var once := PlayerRemoved(doc, playerId);
    var a := WithoutPlayerEntries(once.dictionaryOfDictionaries.value, playerId);
    var b := once.dictionaryOfDictionaries.value;
    assert forall c | c in a :: a[c] == b[c];
    assert a == b;
    assert once.playerNames.value - {playerId} == once.playerNames.value;
  }

  /** Removing a player who appears nowhere gives an equal document. */
  lemma {:induction false} RemovingAbsentPlayerChangesNothing(doc: SaveGame, playerId: string)
    requires playerId !in doc.playerNames.value
    requires forall c | c in doc.dictionaryOfDictionaries.value && IsPlayerCategory(c) ::
      playerId !in doc.dictionaryOfDictionaries.value[c]
    ensures PlayerRemoved(doc, playerId) == doc
  {
    var before := doc.dictionaryOfDictionaries.value;
    var after := WithoutPlayerEntries(before, playerId);
    assert forall c | c in after :: after[c] == before[c];
    assert after == before;
    assert doc.playerNames.value - {playerId} == doc.playerNames.value;
  }

  /** `removePlayer`: works on a `structuredClone`, so the caller's document, nested
      dictionaries included, is left as it was. */
  method RemovePlayer(saveGame: LiveSaveGame, playerId: string) returns (updatedSaveGame: LiveSaveGame)
    ensures fresh(updatedSaveGame.dictionaryOfDictionaries)
    ensures unchanged(saveGame.dictionaryOfDictionaries)
    ensures updatedSaveGame.View() == PlayerRemoved(saveGame.View(), playerId)
  {
    updatedSaveGame := StructuredClone(saveGame.View());
    ghost var names := updatedSaveGame.playerNames.value;
    if playerId in updatedSaveGame.playerNames.value {
      updatedSaveGame := updatedSaveGame.(playerNames := updatedSaveGame.playerNames.(
        value := updatedSaveGame.playerNames.value - {playerId}));
    }
    var dictionaries := updatedSaveGame.dictionaryOfDictionaries;
    ghost var original := dictionaries.value;
    var keys := set key | key in dictionaries.value && IsPlayerCategory(key);
    ghost var visited: set<string> := {};
    while keys != {}
      invariant keys + visited == set key | key in original && IsPlayerCategory(key)
      invariant keys !! visited
      invariant dictionaries.value.Keys == original.Keys
      invariant forall c | c in original ::
        dictionaries.value[c] == if c in visited then original[c] - {playerId} else original[c]
      decreases keys
    {
      var key :| key in keys;
      var dict := dictionaries.value[key];
      if playerId in dict {
        dictionaries.value := dictionaries.value[key := dict - {playerId}];
      } else {
        assert dict - {playerId} == dict;
      }
      keys := keys - {key};
      visited := visited + {key};
    }
    assert dictionaries.value == WithoutPlayerEntries(original, playerId);
    assert updatedSaveGame.playerNames.value == names - {playerId};
  }
}
