/**
 * The player-upgrades hook: reads and writes one player's entry in one per-player upgrade
 * category of the live document.  Every write goes through the shared
 * `dictionaryOfDictionaries` object, then hands a top-level copy of the document to the
 * update callback; that copy is what the methods below return as `notified`.
 */
module PlayerUpgradesHook {
  import opened Wrappers
  import opened SaveGameModel

  /** The editable per-player categories, in declaration order. */
  datatype UpgradeType =
    | Speed | Strength | Range | Launch | ExtraJump | MapPlayerCount | Stamina
    | Health | UpgradeHealth | CrouchRest | TumbleWings
  {
    /** The category name in `dictionaryOfDictionaries.value`. */
    function Key(): string {
      match this
      case Speed => "playerUpgradeSpeed"
      case Strength => "playerUpgradeStrength"
      case Range => "playerUpgradeRange"
      case Launch => "playerUpgradeLaunch"
      case ExtraJump => "playerUpgradeExtraJump"
      case MapPlayerCount => "playerUpgradeMapPlayerCount"
      case Stamina => "playerUpgradeStamina"
      case Health => "playerHealth"
      case UpgradeHealth => "playerUpgradeHealth"
      case CrouchRest => "playerUpgradeCrouchRest"
      case TumbleWings => "playerUpgradeTumbleWings"
    }
  }

  /** The member declared at position `i`. */
  function UpgradeAt(i: int): UpgradeType
    requires 0 <= i < 11
  {
    [Speed, Strength, Range, Launch, ExtraJump, MapPlayerCount, Stamina,
     Health, UpgradeHealth, CrouchRest, TumbleWings][i]
  }

  /** The position a member is declared at. */
  function Position(u: UpgradeType): (r: nat)
    ensures r < 11 && UpgradeAt(r) == u
  {
    match u
    case Speed => 0
    case Strength => 1
    case Range => 2
    case Launch => 3
    case ExtraJump => 4
    case MapPlayerCount => 5
    case Stamina => 6
    case Health => 7
    case UpgradeHealth => 8
    case CrouchRest => 9
    case TumbleWings => 10
  }

  /** `Object.values(upgradeType)`: every member, in declaration order. */
  function AllUpgradeTypes(): seq<UpgradeType> {
    seq(11, UpgradeAt)
  }

  /** Distinct members name distinct categories, so a write to one never touches another. */
  lemma KeyInjective(a: UpgradeType, b: UpgradeType)
    ensures a.Key() == b.Key() ==> a == b
  {
  }

  /** The list of values names every member exactly once. */
  lemma AllUpgradeTypesComplete(u: UpgradeType)
    ensures u in AllUpgradeTypes()
    ensures forall i, j :: 0 <= i < j < |AllUpgradeTypes()| ==> AllUpgradeTypes()[i] != AllUpgradeTypes()[j]
  {
    assert AllUpgradeTypes()[Position(u)] == u;
    forall i: nat, j: nat | i < j < |AllUpgradeTypes()|
      ensures AllUpgradeTypes()[i] != AllUpgradeTypes()[j]
    {
      PositionOfUpgradeAt(i);
      PositionOfUpgradeAt(j);
    }
  }

  /** Positions and members correspond one to one. */
  lemma PositionOfUpgradeAt(i: int)
    requires 0 <= i < 11
    ensures Position(UpgradeAt(i)) == i
  {
  }

  // ----- the hook's operations as functions of the categories -----

  /** `updateUpgradeValue`: write `newValue` for the player, only if the category exists. */
  function Updated(categories: Categories, playerId: string, u: UpgradeType, newValue: int): Categories
  {
    if u.Key() in categories then WithValue(categories, u.Key(), playerId, newValue)
    else categories
  }

  /** `handleIncrease`: the current value (0 when unset) plus one. */
  function Increased(categories: Categories, playerId: string, u: UpgradeType): Categories
  {
    if u.Key() !in categories then categories
    else Updated(categories, playerId, u, ValueOrZero(categories, u.Key(), playerId) + 1)
  }

  /** `handleDecrease`: the current value minus one, only while it is positive. */
  function Decreased(categories: Categories, playerId: string, u: UpgradeType): Categories
  {
    if u.Key() !in categories then categories
    else
      var current := ValueOrZero(categories, u.Key(), playerId);
      if current > 0 then Updated(categories, playerId, u, current - 1) else categories
  }

  /** An update sets exactly the player's entry in an existing category, and is a no-op when
      the category is missing. */
  lemma UpdatedSpec(categories: Categories, playerId: string, u: UpgradeType, newValue: int,
                    category: string, key: string)
    ensures u.Key() in categories ==> ValueOrZero(Updated(categories, playerId, u, newValue), u.Key(), playerId) == newValue
    ensures u.Key() !in categories ==> Updated(categories, playerId, u, newValue) == categories
    ensures (category, key) != (u.Key(), playerId) ==>
      ValueOrZero(Updated(categories, playerId, u, newValue), category, key) == ValueOrZero(categories, category, key)
    ensures Updated(categories, playerId, u, newValue).Keys == categories.Keys
  {
    if u.Key() in categories {
      WithValueReadBack(categories, u.Key(), playerId, newValue, category, key);
    }
  }

  /** An increase adds one to the value read as 0 when unset, and touches nothing else. */
  lemma IncreasedSpec(categories: Categories, playerId: string, u: UpgradeType, category: string, key: string)
    ensures u.Key() in categories ==>
      ValueOrZero(Increased(categories, playerId, u), u.Key(), playerId) == ValueOrZero(categories, u.Key(), playerId) + 1
    ensures u.Key() !in categories ==> Increased(categories, playerId, u) == categories
    ensures (category, key) != (u.Key(), playerId) ==>
      ValueOrZero(Increased(categories, playerId, u), category, key) == ValueOrZero(categories, category, key)
    ensures Increased(categories, playerId, u).Keys == categories.Keys
  {
    UpdatedSpec(categories, playerId, u, ValueOrZero(categories, u.Key(), playerId) + 1, category, key);
  }

  /** A decrease subtracts one from a positive value and leaves a value of 0 or less as it is:
      it never takes a non-negative value below 0. */
  lemma DecreasedSpec(categories: Categories, playerId: string, u: UpgradeType, category: string, key: string)
    ensures var before := ValueOrZero(categories, u.Key(), playerId);
      ValueOrZero(Decreased(categories, playerId, u), u.Key(), playerId) == if before > 0 then before - 1 else before
    ensures ValueOrZero(categories, u.Key(), playerId) <= 0 ==> Decreased(categories, playerId, u) == categories
    ensures ValueOrZero(categories, u.Key(), playerId) >= 0 ==>
      ValueOrZero(Decreased(categories, playerId, u), u.Key(), playerId) >= 0
    ensures (category, key) != (u.Key(), playerId) ==>
      ValueOrZero(Decreased(categories, playerId, u), category, key) == ValueOrZero(categories, category, key)
    ensures Decreased(categories, playerId, u).Keys == categories.Keys
  {
    var before := ValueOrZero(categories, u.Key(), playerId);
    if u.Key() in categories && before > 0 {
      UpdatedSpec(categories, playerId, u, before - 1, category, key);
    }
  }

  /** A decrease undoes an increase of a value that is already stored and not negative. */
  lemma {:induction false} DecreaseUndoesIncrease(categories: Categories, playerId: string, u: UpgradeType)
    requires u.Key() in categories && playerId in categories[u.Key()]
    requires categories[u.Key()][playerId] >= 0
    ensures Decreased(Increased(categories, playerId, u), playerId, u) == categories
  {
    var k := u.Key();
    var v := categories[k][playerId];
    var up := Increased(categories, playerId, u);
    assert up == WithValue(categories, k, playerId, v + 1);
    assert ValueOrZero(up, k, playerId) == v + 1;
    assert Decreased(up, playerId, u) == WithValue(up, k, playerId, v);
    assert WithValue(up, k, playerId, v)[k] == categories[k];
  }

  // ----- the hook's operations on the live document -----

  /** `updateUpgradeValue`.  The spread copy `{ ...saveData }` shares `dictionaryOfDictionaries`,
      so the write lands in the caller's document too. */
  method UpdateUpgradeValue(saveData: LiveSaveGame, playerId: string, u: UpgradeType, newValue: int)
    returns (notified: Option<LiveSaveGame>)
    modifies saveData.dictionaryOfDictionaries
    ensures saveData.dictionaryOfDictionaries.value
      == Updated(old(saveData.dictionaryOfDictionaries.value), playerId, u, newValue)
    ensures notified == if u.Key() in old(saveData.dictionaryOfDictionaries.value) then Some(saveData) else None
  {
    var updatedSaveData := saveData;
    var dictionaries := updatedSaveData.dictionaryOfDictionaries;
    if u.Key() !in dictionaries.value {
      return None;
    }
    dictionaries.value := dictionaries.value[u.Key() := dictionaries.value[u.Key()][playerId := newValue]];
    notified := Some(updatedSaveData);
  }

  /** `handleIncrease`. */
  method HandleIncrease(saveData: LiveSaveGame, playerId: string, u: UpgradeType)
    returns (notified: Option<LiveSaveGame>)
    modifies saveData.dictionaryOfDictionaries
    ensures saveData.dictionaryOfDictionaries.value == Increased(old(saveData.dictionaryOfDictionaries.value), playerId, u)
    ensures notified == if u.Key() in old(saveData.dictionaryOfDictionaries.value) then Some(saveData) else None
  {
    var dictionaries := saveData.dictionaryOfDictionaries;
    var key := u.Key();
    if key !in dictionaries.value {
      return None;
    }
    ghost var before := dictionaries.value;
    var currentValue := ValueOrZero(dictionaries.value, key, playerId);
    assert Increased(before, playerId, u) == Updated(before, playerId, u, currentValue + 1);
    notified := UpdateUpgradeValue(saveData, playerId, u, currentValue + 1);
  }

  /** `handleDecrease`. */
  method HandleDecrease(saveData: LiveSaveGame, playerId: string, u: UpgradeType)
    returns (notified: Option<LiveSaveGame>)
    modifies saveData.dictionaryOfDictionaries
    ensures saveData.dictionaryOfDictionaries.value == Decreased(old(saveData.dictionaryOfDictionaries.value), playerId, u)
    ensures notified == if u.Key() in old(saveData.dictionaryOfDictionaries.value)
                          && ValueOrZero(old(saveData.dictionaryOfDictionaries.value), u.Key(), playerId) > 0
                        then Some(saveData) else None
  {
    var dictionaries := saveData.dictionaryOfDictionaries;
    var key := u.Key();
    if key !in dictionaries.value {
      return None;
    }
    var currentValue := ValueOrZero(dictionaries.value, key, playerId);
    notified := None;
    if currentValue > 0 {
      notified := UpdateUpgradeValue(saveData, playerId, u, currentValue - 1);
    }
  }

  /** `setUpgradeValue`. */
  method SetUpgradeValue(saveData: LiveSaveGame, playerId: string, u: UpgradeType, newValue: int)
    returns (notified: Option<LiveSaveGame>)
    modifies saveData.dictionaryOfDictionaries
    ensures saveData.dictionaryOfDictionaries.value
      == Updated(old(saveData.dictionaryOfDictionaries.value), playerId, u, newValue)
    ensures notified == if u.Key() in old(saveData.dictionaryOfDictionaries.value) then Some(saveData) else None
  {
    notified := UpdateUpgradeValue(saveData, playerId, u, newValue);
  }
}
