/**
 * The save-game history hook: the last three uploaded documents, kept in `localStorage` and
 * mirrored in memory, with a persistent switch that turns the history off.
 */
module SaveGameHistoryHook {
  import opened Wrappers
  import opened SaveGameModel

  const StorageKey := "save-game-history"
  const StorageKeyDisabled := "disable-save-game-history"
  const MaxHistoryItems := 3

  datatype Summary = Summary(level: int, totalHaul: int, playerCount: nat)

  datatype HistoryItem = HistoryItem(fileName: string, saveGame: SaveGame, timestamp: int, summary: Summary)

  /** What `localStorage` holds under the history key: nothing, the empty string, text that
      `JSON.parse` rejects, or a stored list. */
  datatype StoredHistory = Absent | Blank | Malformed | Items(items: seq<HistoryItem>)

  /** The browser's `localStorage`, shared by every instance of the hook. */
  class LocalStorage {
    var history: StoredHistory
    var disabledMarker: Option<string>

    constructor (history: StoredHistory, disabledMarker: Option<string>)
      ensures this.history == history && this.disabledMarker == disabledMarker
    {
      this.history := history;
      this.disabledMarker := disabledMarker;
    }
  }

  /** The hook's state together with the storage it reads. */
  datatype HistoryState = HistoryState(
    history: seq<HistoryItem>, disabled: bool, stored: StoredHistory, disabledMarker: Option<string>)

  // ----- the hook's operations as functions of the state -----

  /** `loadHistoryFromLocalStorage`'s result. */
  function Loaded(stored: StoredHistory): Option<seq<HistoryItem>> {
    if stored.Items? then Some(stored.items) else None
  }

  /** The storage after a load: text that does not parse is removed. */
  function StoredAfterLoad(stored: StoredHistory): StoredHistory {
    if stored.Malformed? then Absent else stored
  }

  /** A marker string counts only when it is non-empty. */
  predicate Truthy(marker: Option<string>) {
    marker.Some? && marker.value != ""
  }

  /** The summary stored with an item.  A missing value reads as 0; see the README about a
      document without `runStats`. */
  function Summarize(saveGame: SaveGame): (r: Summary)
    ensures r.level == ValueOrZero(saveGame.dictionaryOfDictionaries.value, "runStats", "level") + 1
    ensures r.totalHaul == ValueOrZero(saveGame.dictionaryOfDictionaries.value, "runStats", "totalHaul")
    ensures r.playerCount == |saveGame.playerNames.value.Keys|
  {
    var categories := saveGame.dictionaryOfDictionaries.value;
    Summary(ValueOrZero(categories, "runStats", "level") + 1,
            ValueOrZero(categories, "runStats", "totalHaul"),
            |saveGame.playerNames.value.Keys|)
  }

  /** Some stored item has the same name and an equal document. */
  predicate IsDuplicate(items: seq<HistoryItem>, fileName: string, saveGame: SaveGame) {
    exists i | 0 <= i < |items| :: items[i].saveGame == saveGame && items[i].fileName == fileName
  }

  /** `[newItem, ...current].slice(0, MAX_HISTORY_ITEMS)`. */
  function Prepended(item: HistoryItem, items: seq<HistoryItem>): (r: seq<HistoryItem>)
    ensures |r| <= MaxHistoryItems
  {
    var all := [item] + items;
    if |all| <= MaxHistoryItems then all else all[..MaxHistoryItems]
  }

  /** The new item comes first, then the stored items in their order, as many as fit. */
  lemma PrependedSpec(item: HistoryItem, items: seq<HistoryItem>)
    ensures |Prepended(item, items)| == if |items| + 1 < MaxHistoryItems then |items| + 1 else MaxHistoryItems
    ensures Prepended(item, items)[0] == item
    ensures Prepended(item, items)[1..] == items[..|Prepended(item, items)| - 1]
  {
  }

  /** `addToHistory`. */
  function AfterAdd(s: HistoryState, fileName: string, saveGame: SaveGame, now: int): HistoryState {
    if s.disabled then s
    else
      var item := HistoryItem(fileName, saveGame, now, Summarize(saveGame));
      var current := Loaded(s.stored);
      if current.Some? && IsDuplicate(current.value, fileName, saveGame) then
        s.(stored := StoredAfterLoad(s.stored))
      else
        var updated := Prepended(item, current.GetOr([]));
        s.(history := updated, stored := Items(updated))
  }

  /** The mount effect. */
  function AfterMount(s: HistoryState): HistoryState {
    if Truthy(s.disabledMarker) then s.(disabled := true)
    else if s.disabled then s
    else
      var loaded := Loaded(s.stored);
      s.(history := loaded.GetOr(s.history), stored := StoredAfterLoad(s.stored))
  }

  /** `disableHistory`. */
  function AfterDisable(s: HistoryState): HistoryState {
    HistoryState([], true, Absent, Some("true"))
  }

  /** `enableHistory`. */
  function AfterEnable(s: HistoryState): HistoryState {
    var loaded := Loaded(s.stored);
    HistoryState(loaded.GetOr(s.history), false, StoredAfterLoad(s.stored), None)
  }

  /** `clearHistory`. */
  function AfterClear(s: HistoryState): HistoryState {
    s.(history := [], stored := Absent)
  }

  // ----- what the operations promise -----

  /** While disabled, adding changes nothing at all. */
  lemma AddWhileDisabled(s: HistoryState, fileName: string, saveGame: SaveGame, now: int)
    requires s.disabled
    ensures AfterAdd(s, fileName, saveGame, now) == s
  {
  }

  /** An add that is not a duplicate puts the new item first, keeps the stored items after it in
      their order, keeps at most three, and leaves memory and storage holding the same list. */
  lemma {:induction false} AddPrepends(s: HistoryState, fileName: string, saveGame: SaveGame, now: int)
    requires !s.disabled
    requires !(s.stored.Items? && IsDuplicate(s.stored.items, fileName, saveGame))
    ensures var r := AfterAdd(s, fileName, saveGame, now);
      var before := if s.stored.Items? then s.stored.items else [];
      && r.stored == Items(r.history)
      && 1 <= |r.history| <= MaxHistoryItems
      && r.history[0] == HistoryItem(fileName, saveGame, now, Summarize(saveGame))
      && r.history[1..] == before[..|r.history| - 1]
      && r.disabled == s.disabled && r.disabledMarker == s.disabledMarker
  {
    var before := if s.stored.Items? then s.stored.items else [];
    PrependedSpec(HistoryItem(fileName, saveGame, now, Summarize(saveGame)), before);
  }

  /** Adding a file already stored under the same name leaves the list unchanged. */
  lemma AddDuplicate(s: HistoryState, fileName: string, saveGame: SaveGame, now: int, i: nat)
    requires s.stored.Items? && i < |s.stored.items|
    requires s.stored.items[i].fileName == fileName && s.stored.items[i].saveGame == saveGame
    ensures AfterAdd(s, fileName, saveGame, now) == s
  {
  }

  /** After an add the new document is in the history unless adding is disabled. */
  lemma AddedIsRemembered(s: HistoryState, fileName: string, saveGame: SaveGame, now: int)
    requires !s.disabled
    ensures var r := AfterAdd(s, fileName, saveGame, now);
      r.stored.Items? && IsDuplicate(r.stored.items, fileName, saveGame)
  {
    var r := AfterAdd(s, fileName, saveGame, now);
    if !(s.stored.Items? && IsDuplicate(s.stored.items, fileName, saveGame)) {
      AddPrepends(s, fileName, saveGame, now);
      assert r.stored.items[0].saveGame == saveGame;
    }
  }

  /** No operation leaves unparseable text behind in storage once it has read it. */
  lemma ReadsRemoveMalformed(s: HistoryState, fileName: string, saveGame: SaveGame, now: int)
    ensures !s.disabled ==> !AfterAdd(s, fileName, saveGame, now).stored.Malformed?
    ensures !AfterEnable(s).stored.Malformed?
    ensures !Truthy(s.disabledMarker) && !s.disabled ==> !AfterMount(s).stored.Malformed?
  {
  }

  /** Disabling empties both lists and survives a reload; enabling clears the marker and comes
      back with the stored list; clearing keeps the switch as it was. */
  lemma SwitchSpec(s: HistoryState)
    ensures AfterDisable(s).history == [] && AfterDisable(s).stored == Absent
    ensures AfterMount(AfterDisable(s)).disabled
    ensures var r := AfterEnable(s); !r.disabled && r.disabledMarker == None
    ensures s.stored.Items? ==> AfterEnable(s).history == s.stored.items
    ensures AfterClear(s).disabled == s.disabled && AfterClear(s).disabledMarker == s.disabledMarker
    ensures AfterClear(s).history == [] && AfterClear(s).stored == Absent
  {
  }

  /** Every list the hook writes to storage or memory keeps the bound, given stored lists that
      keep it. */
  lemma {:induction false} BoundPreserved(s: HistoryState, fileName: string, saveGame: SaveGame, now: int)
    requires |s.history| <= MaxHistoryItems
    requires s.stored.Items? ==> |s.stored.items| <= MaxHistoryItems
    ensures var r := AfterAdd(s, fileName, saveGame, now);
      |r.history| <= MaxHistoryItems && (r.stored.Items? ==> |r.stored.items| <= MaxHistoryItems)
    ensures |AfterMount(s).history| <= MaxHistoryItems
    ensures |AfterEnable(s).history| <= MaxHistoryItems
  {
  }

  // ----- the hook instance -----

  class SaveGameHistory {
    var history: seq<HistoryItem>
    var disabled: bool
    const storage: LocalStorage

    function State(): HistoryState
      reads this, storage
    {
      HistoryState(history, disabled, storage.history, storage.disabledMarker)
    }

    /** The initial `useState` values, before the mount effect. */
    constructor (storage: LocalStorage)
      ensures this.storage == storage
      ensures history == [] && !disabled
    {
      this.storage := storage;
      history := [];
      disabled := false;
    }

    /** `loadHistoryFromLocalStorage`. */
    method LoadHistoryFromLocalStorage() returns (loaded: Option<seq<HistoryItem>>)
      modifies storage`history
      ensures loaded == Loaded(old(storage.history))
      ensures storage.history == StoredAfterLoad(old(storage.history))
    {
      var storedHistory := storage.history;
      match storedHistory
      case Absent => loaded := None;
      case Blank => loaded := None;
      case Malformed =>
        storage.history := Absent;
        loaded := None;
      case Items(items) => loaded := Some(items);
    }

    /** The mount effect. */
    method Mount()
      modifies this, storage
      ensures State() == AfterMount(old(State()))
    {
      var isDisabled := storage.disabledMarker;
      if isDisabled.Some? && isDisabled.value != "" {
        disabled := true;
        return;
      }
      if disabled {
        return;
      }
      var loadedHistory := LoadHistoryFromLocalStorage();
      if loadedHistory.Some? {
        history := loadedHistory.value;
      }
    }

    /** `addToHistory`, with `Date.now()` passed in as `now`. */
    method AddToHistory(fileName: string, saveGame: SaveGame, now: int)
      modifies this, storage
      ensures State() == AfterAdd(old(State()), fileName, saveGame, now)
    {
      if disabled {
        return;
      }
      var categories := saveGame.dictionaryOfDictionaries.value;
      var summary := Summary(ValueOrZero(categories, "runStats", "level") + 1,
                             ValueOrZero(categories, "runStats", "totalHaul"),
                             |saveGame.playerNames.value.Keys|);
      var newItem := HistoryItem(fileName, saveGame, now, summary);
      var currentHistory := LoadHistoryFromLocalStorage();
      var isDuplicate := false;
      if currentHistory.Some? {
        var items := currentHistory.value;
        var i := 0;
        while i < |items| && !isDuplicate
          invariant 0 <= i <= |items|
          invariant isDuplicate <==> exists j | 0 <= j < i :: items[j].saveGame == saveGame && items[j].fileName == fileName
        {
          if items[i].saveGame == saveGame && items[i].fileName == fileName {
            isDuplicate := true;
          }
          i := i + 1;
        }
      }
      if isDuplicate {
        return;
      }
      var all := [newItem] + currentHistory.GetOr([]);
      var updatedHistory := if |all| <= MaxHistoryItems then all else all[..MaxHistoryItems];
      history := updatedHistory;
      storage.history := Items(updatedHistory);
    }

    /** `disableHistory`. */
    method DisableHistory()
      modifies this, storage
      ensures State() == AfterDisable(old(State()))
    {
      disabled := true;
      storage.disabledMarker := Some("true");
      storage.history := Absent;
      history := [];
    }

    /** `enableHistory`. */
    method EnableHistory()
      modifies this, storage
      ensures State() == AfterEnable(old(State()))
    {
      disabled := false;
      storage.disabledMarker := None;
      var loadedHistory := LoadHistoryFromLocalStorage();
      if loadedHistory.Some? {
        history := loadedHistory.value;
      }
    }

    /** `clearHistory`. */
    method ClearHistory()
      modifies this, storage
      ensures State() == AfterClear(old(State()))
    {
      storage.history := Absent;
      history := [];
    }
  }
}
