/**
 * The player-upgrades panel: which upgrade controls it shows for a player, and the health
 * coupling of its `playerUpgradeHealth` control, which also rewrites `playerHealth`.
 */
module PlayerUpgradesPanel {
  import opened Wrappers
  import opened SaveGameModel
  import opened PlayerUpgradesHook

  const BaseHealth := 100
  const HealthIncrement := 20

  /** The health the panel writes for a given health-upgrade level. */
  function MaxHealth(healthUpgrade: int): int {
    BaseHealth + healthUpgrade * HealthIncrement
  }

  /** The maximum the health bar draws for a given health-upgrade level. */
  function BarMaxHealth(healthUpgrade: int): int {
    100 + healthUpgrade * 20
  }

  /** The health the panel writes is exactly the bar's maximum; each level adds 20. */
  lemma MaxHealthMatchesBar(healthUpgrade: int)
    ensures MaxHealth(healthUpgrade) == BarMaxHealth(healthUpgrade)
    ensures MaxHealth(healthUpgrade + 1) == MaxHealth(healthUpgrade) + 20
    ensures MaxHealth(0) == 100
  {
  }

  // ----- which controls are shown -----

  /** `filter(t => t !== 'playerHealth')`. */
  function WithoutHealth(s: seq<UpgradeType>): (r: seq<UpgradeType>)
    ensures forall u :: u in r <==> u in s && u != Health
    ensures |r| <= |s|
  {
    if s == [] then []
    else (if s[0] == Health then [] else [s[0]]) + WithoutHealth(s[1..])
  }

  /** The editable upgrades, `upgradeValues`. */
  function UpgradeValues(): seq<UpgradeType> {
    WithoutHealth(AllUpgradeTypes())
  }

  /** The editable list is every upgrade but `playerHealth`, in declaration order: the members
      declared before it, then those declared after it. */
  lemma UpgradeValuesInDeclarationOrder()
    ensures AllUpgradeTypes()[7] == Health
    ensures UpgradeValues() == AllUpgradeTypes()[..7] + AllUpgradeTypes()[8..]
  {
    var all := AllUpgradeTypes();
    forall i | 0 <= i < |all| && i != 7
      ensures all[i] != Health
    {
      assert Position(all[i]) == i;
    }
    WithoutOnlyHealth(all, 7);
  }

  /** Filtering a list whose only `playerHealth` is at index k drops just that element. */
  lemma WithoutOnlyHealth(s: seq<UpgradeType>, k: nat)
    requires k < |s| && s[k] == Health
    requires forall i | 0 <= i < |s| && i != k :: s[i] != Health
    ensures WithoutHealth(s) == s[..k] + s[k + 1..]
  {
    var before, tail, after := s[..k], s[k..], s[k + 1..];
    assert Health !in before;
    assert Health !in after;
    WithoutHealthOfHealthless(before);
    WithoutHealthOfHealthless(after);
    WithoutHealthSplit(s, k);
    assert WithoutHealth(tail) == WithoutHealth(after) by {
      assert tail[0] == Health && tail[1..] == after;
    }
    assert WithoutHealth(s) == before + after;
  }

  /** The filter works piecewise. */
  lemma {:induction false} WithoutHealthSplit(s: seq<UpgradeType>, k: nat)
    requires k <= |s|
    ensures WithoutHealth(s) == WithoutHealth(s[..k]) + WithoutHealth(s[k..])
    decreases k
  {
    if k > 0 {
      WithoutHealthSplit(s[1..], k - 1);
      assert s[1..][..k - 1] == s[..k][1..];
      assert s[1..][k - 1..] == s[k..];
    } else {
      assert s[..k] == [];
    }
  }

  /** A list without `playerHealth` passes the filter unchanged. */
  lemma {:induction false} WithoutHealthOfHealthless(s: seq<UpgradeType>)
    requires Health !in s
    ensures WithoutHealth(s) == s
  {
    if s != [] {
      WithoutHealthOfHealthless(s[1..]);
    }
  }

  /** One `UpgradeCount` control: the upgrade it edits and the count it shows. */
  datatype UpgradeControl = UpgradeControl(upgrade: UpgradeType, count: int)

  /** The controls for the given upgrades, in order, skipping those whose category is missing. */
  function Controls(categories: Categories, playerId: string, upgrades: seq<UpgradeType>): (r: seq<UpgradeControl>)
    ensures forall c :: c in r ==>
      c.upgrade in upgrades && c.upgrade.Key() in categories
      && c.count == ValueOrZero(categories, c.upgrade.Key(), playerId)
    ensures forall u :: u in upgrades && u.Key() in categories ==> UpgradeControl(u, ValueOrZero(categories, u.Key(), playerId)) in r
  {
    if upgrades == [] then []
    else
      var u := upgrades[0];
      (if u.Key() in categories then [UpgradeControl(u, ValueOrZero(categories, u.Key(), playerId))] else [])
      + Controls(categories, playerId, upgrades[1..])
  }

  /** The controls the panel renders for a player. */
  function RenderedControls(categories: Categories, playerId: string): seq<UpgradeControl> {
    Controls(categories, playerId, UpgradeValues())
  }

  /** An upgrade has a control exactly when it is not `playerHealth` and its category is in the
      document; the control shows the stored count, 0 when unset. */
  lemma RenderedControlsSpec(categories: Categories, playerId: string, u: UpgradeType)
    ensures (exists c :: c in RenderedControls(categories, playerId) && c.upgrade == u)
      <==> u != Health && u.Key() in categories
    ensures forall c :: c in RenderedControls(categories, playerId) ==>
      c.count == ValueOrZero(categories, c.upgrade.Key(), playerId)
  {
    AllUpgradeTypesComplete(u);
    if u != Health && u.Key() in categories {
      assert UpgradeControl(u, ValueOrZero(categories, u.Key(), playerId)) in RenderedControls(categories, playerId);
    }
  }

  // ----- the health coupling, as functions of the categories -----

  /** `handleIncreaseHealth`: raise the level, read it back, write the matching health. */
  function HealthIncreased(categories: Categories, playerId: string): Categories {
    var raised := Increased(categories, playerId, UpgradeHealth);
    Updated(raised, playerId, Health, MaxHealth(ValueOrZero(raised, UpgradeHealth.Key(), playerId)))
  }

  /** `handleDecreaseHealth`: lower the level if positive, read it back, write the matching health. */
  function HealthDecreased(categories: Categories, playerId: string): Categories {
    var lowered := Decreased(categories, playerId, UpgradeHealth);
    Updated(lowered, playerId, Health, MaxHealth(ValueOrZero(lowered, UpgradeHealth.Key(), playerId)))
  }

  /** Increasing health: the level becomes L + 1 and the health 100 + 20 (L + 1); without a
      `playerUpgradeHealth` category the level stays unset and the health becomes 100.  No other
      entry changes. */
  lemma {:induction false} HealthIncreasedSpec(categories: Categories, playerId: string, category: string, key: string)
    ensures var level := ValueOrZero(categories, "playerUpgradeHealth", playerId);
      var r := HealthIncreased(categories, playerId);
      && ValueOrZero(r, "playerUpgradeHealth", playerId)
           == (if "playerUpgradeHealth" in categories then level + 1 else 0)
      && ("playerHealth" in categories ==>
            ValueOrZero(r, "playerHealth", playerId)
              == (if "playerUpgradeHealth" in categories then MaxHealth(level + 1) else BaseHealth))
      && ("playerHealth" !in categories ==> ValueOrZero(r, "playerHealth", playerId) == 0)
    ensures (category, key) != ("playerUpgradeHealth", playerId) && (category, key) != ("playerHealth", playerId) ==>
      ValueOrZero(HealthIncreased(categories, playerId), category, key) == ValueOrZero(categories, category, key)
  {
    var raised := Increased(categories, playerId, UpgradeHealth);
    var health := MaxHealth(ValueOrZero(raised, "playerUpgradeHealth", playerId));
    IncreasedSpec(categories, playerId, UpgradeHealth, category, key);
    IncreasedSpec(categories, playerId, UpgradeHealth, "playerHealth", playerId);
    UpdatedSpec(raised, playerId, Health, health, category, key);
    UpdatedSpec(raised, playerId, Health, health, "playerUpgradeHealth", playerId);
  }

  /** Decreasing health: a level L > 0 becomes L - 1 with health 100 + 20 (L - 1); a level of 0
      or less is kept and the health is still rewritten as 100 + 20 L.  No other entry changes. */
  lemma {:induction false} HealthDecreasedSpec(categories: Categories, playerId: string, category: string, key: string)
    ensures var level := ValueOrZero(categories, "playerUpgradeHealth", playerId);
      var r := HealthDecreased(categories, playerId);
      var after := if level > 0 then level - 1 else level;
      && ValueOrZero(r, "playerUpgradeHealth", playerId) == after
      && ("playerHealth" in categories ==> ValueOrZero(r, "playerHealth", playerId) == MaxHealth(after))
      && ("playerHealth" !in categories ==> ValueOrZero(r, "playerHealth", playerId) == 0)
    ensures (category, key) != ("playerUpgradeHealth", playerId) && (category, key) != ("playerHealth", playerId) ==>
      ValueOrZero(HealthDecreased(categories, playerId), category, key) == ValueOrZero(categories, category, key)
  {
    var lowered := Decreased(categories, playerId, UpgradeHealth);
    var health := MaxHealth(ValueOrZero(lowered, "playerUpgradeHealth", playerId));
    DecreasedSpec(categories, playerId, UpgradeHealth, category, key);
    DecreasedSpec(categories, playerId, UpgradeHealth, "playerHealth", playerId);
    UpdatedSpec(lowered, playerId, Health, health, category, key);
    UpdatedSpec(lowered, playerId, Health, health, "playerUpgradeHealth", playerId);
  }

  /** After either health edit the stored health is the bar's maximum for the stored level. */
  lemma HealthInLockstep(categories: Categories, playerId: string)
    requires "playerHealth" in categories
    ensures var r := HealthIncreased(categories, playerId);
      ValueOrZero(r, "playerHealth", playerId) == BarMaxHealth(ValueOrZero(r, "playerUpgradeHealth", playerId))
    ensures var r := HealthDecreased(categories, playerId);
      ValueOrZero(r, "playerHealth", playerId) == BarMaxHealth(ValueOrZero(r, "playerUpgradeHealth", playerId))
  {
    HealthIncreasedSpec(categories, playerId, "", "");
    HealthDecreasedSpec(categories, playerId, "", "");
  }

  // ----- the handlers on the live document -----

  /** `handleIncreaseHealth`; `notified` lists the documents handed to the update callback:
      the document once for each of the two categories that exists. */
  method HandleIncreaseHealth(saveData: LiveSaveGame, playerId: string) returns (notified: seq<LiveSaveGame>)
    modifies saveData.dictionaryOfDictionaries
    ensures saveData.dictionaryOfDictionaries.value == HealthIncreased(old(saveData.dictionaryOfDictionaries.value), playerId)
    ensures notified ==
      (if "playerUpgradeHealth" in old(saveData.dictionaryOfDictionaries.value) then [saveData] else [])
      + (if "playerHealth" in old(saveData.dictionaryOfDictionaries.value) then [saveData] else [])
    ensures forall d :: d in notified ==> d == saveData
  {
    ghost var before := saveData.dictionaryOfDictionaries.value;
    IncreasedSpec(before, playerId, UpgradeHealth, "", "");
    var first := HandleIncrease(saveData, playerId, UpgradeHealth);
    var healthUpgrade := ValueOrZero(saveData.dictionaryOfDictionaries.value, UpgradeHealth.Key(), playerId);
    var maxHealth := BaseHealth + healthUpgrade * HealthIncrement;
    var second := SetUpgradeValue(saveData, playerId, Health, maxHealth);
    notified := (if first.Some? then [first.value] else []) + (if second.Some? then [second.value] else []);
  }

  /** `handleDecreaseHealth`. */
  method HandleDecreaseHealth(saveData: LiveSaveGame, playerId: string) returns (notified: seq<LiveSaveGame>)
    modifies saveData.dictionaryOfDictionaries
    ensures saveData.dictionaryOfDictionaries.value == HealthDecreased(old(saveData.dictionaryOfDictionaries.value), playerId)
    ensures notified ==
      (if "playerUpgradeHealth" in old(saveData.dictionaryOfDictionaries.value)
          && ValueOrZero(old(saveData.dictionaryOfDictionaries.value), "playerUpgradeHealth", playerId) > 0
       then [saveData] else [])
      + (if "playerHealth" in old(saveData.dictionaryOfDictionaries.value) then [saveData] else [])
    ensures forall d :: d in notified ==> d == saveData
  {
    ghost var before := saveData.dictionaryOfDictionaries.value;
    DecreasedSpec(before, playerId, UpgradeHealth, "", "");
    var first := HandleDecrease(saveData, playerId, UpgradeHealth);
    var healthUpgrade := ValueOrZero(saveData.dictionaryOfDictionaries.value, UpgradeHealth.Key(), playerId);
    var maxHealth := BaseHealth + healthUpgrade * HealthIncrement;
    var second := SetUpgradeValue(saveData, playerId, Health, maxHealth);
    notified := (if first.Some? then [first.value] else []) + (if second.Some? then [second.value] else []);
  }

  /** A control's `onIncrease`: the health upgrade goes through the health coupling, every other
      upgrade straight to the hook. */
  method OnIncrease(saveData: LiveSaveGame, playerId: string, upgrade: UpgradeType) returns (notified: seq<LiveSaveGame>)
    modifies saveData.dictionaryOfDictionaries
    ensures saveData.dictionaryOfDictionaries.value ==
      if upgrade == UpgradeHealth then HealthIncreased(old(saveData.dictionaryOfDictionaries.value), playerId)
      else Increased(old(saveData.dictionaryOfDictionaries.value), playerId, upgrade)
    ensures forall d :: d in notified ==> d == saveData
  {
    if upgrade == UpgradeHealth {
      notified := HandleIncreaseHealth(saveData, playerId);
    } else {
      var n := HandleIncrease(saveData, playerId, upgrade);
      notified := if n.Some? then [n.value] else [];
    }
  }

  /** A control's `onDecrease`. */
  method OnDecrease(saveData: LiveSaveGame, playerId: string, upgrade: UpgradeType) returns (notified: seq<LiveSaveGame>)
    modifies saveData.dictionaryOfDictionaries
    ensures saveData.dictionaryOfDictionaries.value ==
      if upgrade == UpgradeHealth then HealthDecreased(old(saveData.dictionaryOfDictionaries.value), playerId)
      else Decreased(old(saveData.dictionaryOfDictionaries.value), playerId, upgrade)
    ensures forall d :: d in notified ==> d == saveData
  {
    if upgrade == UpgradeHealth {
      notified := HandleDecreaseHealth(saveData, playerId);
    } else {
      var n := HandleDecrease(saveData, playerId, upgrade);
      notified := if n.Some? then [n.value] else [];
    }
  }

  /** A shown control other than the health upgrade never touches `playerHealth`. */
  lemma OtherControlsKeepHealth(categories: Categories, playerId: string, upgrade: UpgradeType, key: string)
    requires upgrade in UpgradeValues() && upgrade != UpgradeHealth
    ensures ValueOrZero(Increased(categories, playerId, upgrade), "playerHealth", key) == ValueOrZero(categories, "playerHealth", key)
    ensures ValueOrZero(Decreased(categories, playerId, upgrade), "playerHealth", key) == ValueOrZero(categories, "playerHealth", key)
  {
    IncreasedSpec(categories, playerId, upgrade, "playerHealth", key);
    DecreasedSpec(categories, playerId, upgrade, "playerHealth", key);
  }
}
