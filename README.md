# REPO save editor — a Dafny model

This project models the core of a browser editor for the encrypted ES3 save files of the game
REPO. It covers four things:

- **The codec.** A file is a 16-byte IV followed by the AES-128-CBC encryption of the UTF-8
  text, which may first be gzipped. The key is derived with PBKDF2-SHA1 (100 rounds, 16 bytes,
  the IV as salt). Decoding accepts an optional `data:…;base64,` prefix and gunzips whenever
  the decrypted bytes start with `1F 8B`.
- **The document.** Its top level holds the nested `dictionaryOfDictionaries`. The editor
  changes that object in place through shallow copies.
- **The editing hooks and panels.** These cover player upgrades with the health coupling,
  run statistics with floors, purchased items, time played, and removing a player.
- **The rest of the page.** This is the save-game history in `localStorage`, the editor page's
  snapshots and its upload, save, reset, new-file and select handlers, and the upload drop zone.

How the model is built:

- **Crypto primitives.** AES, PBKDF2, gzip, base64 and UTF-8 are fields of a `Primitives`
  value.
  - Only the laws the editor relies on are assumed, as the predicate `Es3Crypto.Lawful`:
    - decryption inverts encryption;
    - gunzip inverts gzip, and gzip output starts with the ID bytes;
    - base64 decoding inverts encoding;
    - the two length rules.
  - `Es3CryptoWitness.LawfulPrimitivesExist` builds a concrete instance satisfying them, which
    shows the laws are consistent.
- **Two views of the document.**
  - `SaveGameModel.SaveGame` is the document as a value, as `JSON.stringify` compares it.
  - `SaveGameModel.LiveSaveGame` is the document the page holds. Its
    `dictionaryOfDictionaries` is a heap object that every `{ ...saveData }` copy shares, so
    hook writes land in the caller's document. `StructuredClone` allocates a fresh one.
- **Hooks, components and their state.**
  - The hooks become methods over the live document.
  - The components with state become classes: `TimePlayedEditor`, `SaveGameHistory`,
    `SaveEditor` and `UploadFile`.
  - Each state change is proved equal to a function of the old state. The promised properties
    are lemmas about those functions.

Two facts about the code shape the model:

- Document updates are not copy-on-write. The hooks write into nested dictionaries that the
  caller shares (`src/hooks/use-player-upgrades.ts:48-51`, `src/hooks/use-run-stats.ts:30-31`),
  so the model writes in place.
- The bounded history cache is a hook of the editor page that runs on every upload, so it is
  modelled (`SaveGameHistoryHook`).

## Model

| member | source | states |
|---|---|---|
| Es3Crypto.EncryptEs3FromBuffer | src/lib/es3-crypto.ts:18-32 | The container starts with the 16-byte IV; the rest is the AES-CBC encryption, under the PBKDF2 key salted with that IV, of the data, gzipped first when asked |
| Es3Crypto.ContainerLength | src/lib/es3-crypto.ts:26-31 | A container is 16 bytes of IV plus a whole, non-zero number of 16-byte cipher blocks |
| Es3Crypto.StripDataUriPrefix | src/lib/es3-crypto.ts:70-72 | Input without `base64,` is passed on unchanged. Otherwise the result is the text after the first `base64,`, up to the next one or the end |
| JsStrings.SegmentAfterFirst | src/lib/es3-crypto.ts:71 | `split(pat)[1]` exists exactly when `pat` occurs. It is the text that starts right after the first occurrence and stops at the next occurrence or at the end of the string |
| JsStrings.FirstSegmentUnique | src/lib/es3-crypto.ts:71 | Only one segment meets that description, so it determines `split(pat)[1]` exactly |
| Es3Crypto.NoMarkerInBase64Text | src/lib/es3-crypto.ts:70-72 | Plain base64 text never contains the `base64,` marker, so it is decoded whole |
| Es3Crypto.SplitIv | src/lib/es3-crypto.ts:76-77 | The IV part and the cipher text together are the input; the IV part is 16 bytes, or the whole input when that is shorter |
| Es3Crypto.AutoDecompress | src/lib/es3-crypto.ts:87-92 | Bytes without the gzip ID pass through untouched; with it, the result is gunzip's, and it fails exactly when gunzip does |
| Es3Crypto.DecryptBuffer | src/lib/es3-crypto.ts:76-92 | Fewer than 16 bytes is the invalid-IV error; a success is the auto-decompressed AES decryption under the key derived from the first 16 bytes |
| Es3Crypto.DecryptEs3 | src/lib/es3-crypto.ts:64-93 | Input whose base64 payload is shorter than an IV fails with the invalid-IV error |
| Es3Crypto.Utf8NeverLooksGzipped | src/lib/es3-crypto.ts:87 | Encoded text never starts with `1F 8B`, so an uncompressed save is never mistaken for gzip |
| Es3Crypto.DecryptBufferRoundTrip | src/lib/es3-crypto.ts:18-32 | Decoding a container gives back the framed bytes, compressed or not |
| Es3Crypto.Es3RoundTrip | src/lib/es3-crypto.ts:42-93 | Decoding the base64 of an encrypted text gives the text back, with or without gzip |
| Es3Crypto.Es3DataUriRoundTrip | src/lib/es3-crypto.ts:69-74 | The same holds for a `data:<type>;base64,` URL as a file reader produces it |
| Es3Crypto.DecodeIgnoresIvAndCompression | src/lib/es3-crypto.ts:23-28 | The decoded text does not depend on the IV or on whether the text was compressed |
| Es3CryptoWitness.LawfulPrimitivesExist | src/lib/es3-crypto.ts:3-8 | Some choice of primitives satisfies every law the codec proofs assume |
| SaveGameModel.StructuredClone | src/hooks/use-save-game.ts:43 | The clone equals the document as a value and its nested dictionaries are new objects |
| SaveGameModel.ValueOrZero | src/hooks/use-player-upgrades.ts:105-111 | A missing category or player reads as 0; otherwise the stored value |
| SaveGameModel.WithValue | src/hooks/use-player-upgrades.ts:50-51 | A write keeps the set of categories and adds the key to the written category |
| SaveGameModel.WithValueReadBack | src/hooks/use-player-upgrades.ts:48-51 | The written entry reads back as the new value; every other entry and category reads as before |
| SaveGameModel.WithStoredValue | src/hooks/use-player-upgrades.ts:50-51 | Writing the value already stored changes nothing |
| PlayerUpgradesHook.KeyInjective | src/hooks/use-player-upgrades.ts:6-18 | Distinct upgrade types name distinct categories |
| PlayerUpgradesHook.AllUpgradeTypesComplete | src/hooks/use-player-upgrades.ts:6-18 | The list of values holds every upgrade type exactly once |
| PlayerUpgradesHook.UpdatedSpec | src/hooks/use-player-upgrades.ts:43-53 | An update sets exactly the player's entry of an existing category; with the category missing it changes nothing |
| PlayerUpgradesHook.IncreasedSpec | src/hooks/use-player-upgrades.ts:61-66 | An increase writes the current value plus one, an unset value counting as 0, and touches nothing else. It adds or removes no category |
| PlayerUpgradesHook.DecreasedSpec | src/hooks/use-player-upgrades.ts:74-81 | A decrease lowers a positive value by one and leaves a value of 0 or less alone, so it never goes below 0 from 0. It adds or removes no category |
| PlayerUpgradesHook.DecreaseUndoesIncrease | src/hooks/use-player-upgrades.ts:61-81 | Increase then decrease of a stored non-negative value restores the categories exactly |
| PlayerUpgradesHook.UpdateUpgradeValue | src/hooks/use-player-upgrades.ts:43-53 | The shared categories become the update's result; the callback gets the caller's document when the category exists and is skipped otherwise |
| PlayerUpgradesHook.HandleIncrease | src/hooks/use-player-upgrades.ts:61-66 | The shared categories become the increase's result, visible through the caller's document |
| PlayerUpgradesHook.HandleDecrease | src/hooks/use-player-upgrades.ts:74-81 | The shared categories become the decrease's result; the callback fires only for a positive value |
| PlayerUpgradesHook.SetUpgradeValue | src/hooks/use-player-upgrades.ts:90-96 | The given value is written unclamped |
| PlayerUpgradesPanel.MaxHealthMatchesBar | src/components/save-editor/player-upgrades.tsx:17-18 | The health written equals the health bar's maximum, `100 + 20 × level` (player-status-bars.tsx line 21) |
| PlayerUpgradesPanel.WithoutHealth | src/components/save-editor/player-upgrades.tsx:30-32 | The filter keeps exactly the types other than `playerHealth` |
| PlayerUpgradesPanel.UpgradeValuesInDeclarationOrder | src/components/save-editor/player-upgrades.tsx:28-34 | The editable list is every upgrade but `playerHealth`, in declaration order |
| PlayerUpgradesPanel.Controls | src/components/save-editor/player-upgrades.tsx:52-57 | Every control is for a listed upgrade whose category exists and shows its count; every such upgrade gets one |
| PlayerUpgradesPanel.RenderedControlsSpec | src/components/save-editor/player-upgrades.tsx:54 | An upgrade has a control exactly when it is not `playerHealth` and its category is in the document |
| PlayerUpgradesPanel.HealthIncreasedSpec | src/components/save-editor/player-upgrades.tsx:36-41 | The level becomes L + 1 and the health 100 + 20(L + 1); without the level category the health is set to 100; nothing else changes |
| PlayerUpgradesPanel.HealthDecreasedSpec | src/components/save-editor/player-upgrades.tsx:43-48 | A level L > 0 becomes L - 1 with health 100 + 20(L - 1); a level of 0 or less stays and the health is rewritten as 100 + 20L. Without the health category the health still reads 0 |
| PlayerUpgradesPanel.HealthInLockstep | src/components/save-editor/player-upgrades.tsx:38-40 | After either health edit, the stored health is the bar's maximum for the stored level |
| PlayerUpgradesPanel.HandleIncreaseHealth | src/components/save-editor/player-upgrades.tsx:36-41 | The shared categories become the health-increase result. The callback gets the caller's document once for the level category and once for the health category, each only when it exists |
| PlayerUpgradesPanel.HandleDecreaseHealth | src/components/save-editor/player-upgrades.tsx:43-48 | The shared categories become the health-decrease result. The callback gets the caller's document once for the level category when it exists and the level is positive, and once for the health category when it exists |
| PlayerUpgradesPanel.OnIncrease | src/components/save-editor/player-upgrades.tsx:58-62 | The health upgrade goes through the health coupling; every other upgrade goes to the plain increase |
| PlayerUpgradesPanel.OnDecrease | src/components/save-editor/player-upgrades.tsx:63-67 | The health upgrade goes through the health coupling; every other upgrade goes to the plain decrease |
| PlayerUpgradesPanel.OtherControlsKeepHealth | src/components/save-editor/player-upgrades.tsx:59-66 | Controls other than the health upgrade never change `playerHealth` |
| RunStatsHook.ClampedChange | src/hooks/use-run-stats.ts:65 | The result is at least the floor and at least the sum, and is one of the two |
| RunStatsHook.StatChangeSpec | src/hooks/use-run-stats.ts:58-67 | A statistic edit writes the clamped sum, never below the floor, and changes no other entry |
| RunStatsHook.ItemWrittenSpec | src/hooks/use-run-stats.ts:41-49 | Both item maps read back the same new count and nothing else changes |
| RunStatsHook.GetRunStatValue | src/hooks/use-run-stats.ts:93-95 | The getter returns the stored value |
| RunStatsHook.GetItemPurchasedValue | src/hooks/use-run-stats.ts:103-105 | The getter returns the stored `itemsPurchased` count |
| RunStatsHook.UpdateRunStatValue | src/hooks/use-run-stats.ts:29-33 | Only `runStats[stat]` is written, in the shared categories; the callback gets the caller's document |
| RunStatsHook.UpdatePurchasedItemValue | src/hooks/use-run-stats.ts:41-49 | `itemsPurchased[item]` and `itemsPurchasedTotal[item]` are both set to the value |
| RunStatsHook.HandleStatChange | src/hooks/use-run-stats.ts:58-67 | Writes `max(minValue, current + change)`, with `minValue` 0 by default |
| RunStatsHook.HandleItemsPurchasedChange | src/hooks/use-run-stats.ts:76-85 | The count is clamped against `itemsPurchased`, then written to both maps |
| RunStatsPanel.Tiles | src/components/save-editor/run-stats.tsx:52-83 | Four tiles (level, currency, total haul, charge), each built from its stored value |
| RunStatsPanel.TileSpec | src/components/save-editor/run-stats.tsx:55-83 | The level shows stored + 1. Clicks never go below the floor (1 for the level, 0 otherwise). An enabled decrease lowers by one. At or above the floor, decrease is disabled exactly when it would change nothing |
| RunStatsPanel.LevelClickShowsAtLeastTwo | src/components/save-editor/run-stats.tsx:55-57 | After any level click the displayed level is at least 2 |
| RunStatsPanel.OnIncrease | src/components/save-editor/run-stats.tsx:56-80 | Writes the stored value plus one, clamped to the tile's floor |
| RunStatsPanel.OnDecrease | src/components/save-editor/run-stats.tsx:57-81 | Writes the stored value minus one, clamped to the tile's floor |
| RunStatsPanel.HandleTimePlayedChange | src/components/save-editor/run-stats.tsx:35-37 | Only the time played changes, to the value as given; the nested dictionaries are the same objects |
| PurchasedItemsPanel.ItemDisplayName | src/components/save-editor/purchased-items.tsx:40 | The display name has no `_`; a key with neither `Item ` nor `_` is shown unchanged |
| PurchasedItemsPanel.ItemDisplayNameRemovesFirstOnly | src/components/save-editor/purchased-items.tsx:40 | Only the first `Item ` is removed; later ones stay |
| PurchasedItemsPanel.ItemDisplayNameOfPrefixedKey | src/components/save-editor/purchased-items.tsx:40 | `Item ` followed by a name without underscores shows as that name |
| PurchasedItemsPanel.TileSpec | src/components/save-editor/purchased-items.tsx:47-49 | Clicks stay at or above 0; an enabled decrease lowers by one; at or above 0, decrease is disabled exactly when it would change nothing |
| PurchasedItemsPanel.Tiles | src/components/save-editor/purchased-items.tsx:37-52 | One tile per purchased item, under its raw key, showing its count, with an underscore-free title |
| PurchasedItemsPanel.OnIncrease | src/components/save-editor/purchased-items.tsx:47 | Edits the item under its raw key with floor 0, in both item maps |
| PurchasedItemsPanel.OnDecrease | src/components/save-editor/purchased-items.tsx:48 | Edits the item under its raw key with floor 0, in both item maps |
| SaveGameHook.UpdateTimePlayed | src/hooks/use-save-game.ts:25-34 | `timePlayed.value` becomes the new time, unclamped; its type tag, every other field and the shared dictionaries are kept |
| SaveGameHook.UpdateTimePlayedOverwrites | src/hooks/use-save-game.ts:25-34 | The last time written wins |
| SaveGameHook.UpdateTimePlayedSameValue | src/hooks/use-save-game.ts:25-34 | Writing back the stored time gives the same document |
| SaveGameHook.PlayerRemovedSpec | src/hooks/use-save-game.ts:45-64 | The player leaves the names and every `player…` category, `playerHasCrown` included. Other categories, other players' entries, and the time, date, team and type tags are kept |
| SaveGameHook.PlayerRemovedIdempotent | src/hooks/use-save-game.ts:45-64 | Removing a player twice is the same as once |
| SaveGameHook.RemovingAbsentPlayerChangesNothing | src/hooks/use-save-game.ts:45-64 | Removing a player who appears nowhere gives an equal document |
| SaveGameHook.RemovePlayer | src/hooks/use-save-game.ts:42-67 | The result is the removal function of the input, in new objects; the input document is unchanged |
| FormatUtils.SplitSeconds | src/utils/format-utils.ts:5-7 | Minutes and seconds lie below 60 and 3600h + 60m + s equals the input |
| FormatUtils.SplitSecondsUnique | src/utils/format-utils.ts:5-7 | No other hours/minutes/seconds with minutes and seconds below 60 add up to the same time |
| FormatUtils.FormatPlayTimeSpelled | src/utils/format-utils.ts:9 | The text is the three decimal numbers, each followed by its unit `h`, `m`, `s` and separated by spaces |
| FormatUtils.FormatPlayTimeInjective | src/utils/format-utils.ts:4-10 | Different times are formatted differently: the text determines the time |
| TimePlayedEditorModel.OpenedFieldsSpec | src/components/save-editor/time-played-editor.tsx:33-35 | The opened fields have minutes and seconds in [0, 59], agree with the formatted text's split, and add back up to the time |
| TimePlayedEditorModel.FieldValueSpec | src/components/save-editor/time-played-editor.tsx:77 | A field reads a decimal number back as that number, and text without digits as 0 |
| TimePlayedEditorModel.TotalCarries | src/components/save-editor/time-played-editor.tsx:40 | Saving does not range-check: 60 extra minutes are the same as one extra hour |
| TimePlayedEditorModel.TimePlayedEditor.constructor | src/components/save-editor/time-played-editor.tsx:27-30 | The dialog starts closed with the fields split from the time |
| TimePlayedEditorModel.TimePlayedEditor.HandleOpen | src/components/save-editor/time-played-editor.tsx:32-37 | Opening refills the fields from the current time and opens the dialog |
| TimePlayedEditorModel.TimePlayedEditor.HandleSave | src/components/save-editor/time-played-editor.tsx:39-43 | Emits hours·3600 + minutes·60 + seconds and closes |
| TimePlayedEditorModel.TimePlayedEditor.Cancel | src/components/save-editor/time-played-editor.tsx:109 | Closes without emitting and without touching the fields |
| TimePlayedEditorModel.TimePlayedEditor.ChangeHours | src/components/save-editor/time-played-editor.tsx:77 | The hours field takes the parsed number, or 0 |
| TimePlayedEditorModel.TimePlayedEditor.ChangeMinutes | src/components/save-editor/time-played-editor.tsx:88-90 | The minutes field takes the parsed number, or 0 |
| TimePlayedEditorModel.TimePlayedEditor.ChangeSeconds | src/components/save-editor/time-played-editor.tsx:101-103 | The seconds field takes the parsed number, or 0 |
| TimePlayedEditorModel.OpenThenSave | src/components/save-editor/time-played-editor.tsx:32-43 | Opening and saving without edits emits the stored time |
| TimePlayedEditorModel.TypeThenSave | src/components/save-editor/time-played-editor.tsx:39-43 | Typing a time into the three fields and saving emits that time |
| SaveGameHistoryHook.Summarize | src/hooks/use-save-game-history.ts:65-71 | The summary level is the stored level (0 if unset) plus 1, the haul the stored haul (0 if unset), and the player count the number of named players |
| SaveGameHistoryHook.Prepended | src/hooks/use-save-game-history.ts:90-93 | The list keeps at most three items |
| SaveGameHistoryHook.PrependedSpec | src/hooks/use-save-game-history.ts:90-93 | The new item is first, then the earlier items in order, as many as fit in three |
| SaveGameHistoryHook.AddWhileDisabled | src/hooks/use-save-game-history.ts:63 | Adding while disabled changes nothing |
| SaveGameHistoryHook.AddPrepends | src/hooks/use-save-game-history.ts:73-96 | A non-duplicate add puts the new item first, keeps at most three, and leaves memory and storage holding the same list |
| SaveGameHistoryHook.AddDuplicate | src/hooks/use-save-game-history.ts:82-88 | A file already stored under the same name with an equal document changes nothing |
| SaveGameHistoryHook.AddedIsRemembered | src/hooks/use-save-game-history.ts:80-96 | Unless disabled, after an add the stored list holds the document under its name |
| SaveGameHistoryHook.ReadsRemoveMalformed | src/hooks/use-save-game-history.ts:26-38 | Stored text that does not parse is removed by every operation that reads it |
| SaveGameHistoryHook.SwitchSpec | src/hooks/use-save-game-history.ts:104-130 | Disabling empties both lists and survives a reload; enabling clears the marker and loads the stored list; clearing empties both lists and keeps the switch |
| SaveGameHistoryHook.BoundPreserved | src/hooks/use-save-game-history.ts:10 | No operation makes either list longer than three |
| SaveGameHistoryHook.LocalStorage.constructor | src/hooks/use-save-game-history.ts:27 | The storage holds the given history text and disabled marker |
| SaveGameHistoryHook.SaveGameHistory.constructor | src/hooks/use-save-game-history.ts:18-19 | The hook starts with an empty history and not disabled |
| SaveGameHistoryHook.SaveGameHistory.LoadHistoryFromLocalStorage | src/hooks/use-save-game-history.ts:26-38 | Returns the stored list, or nothing for missing, empty or unparseable text, which is removed |
| SaveGameHistoryHook.SaveGameHistory.Mount | src/hooks/use-save-game-history.ts:40-53 | A non-empty marker disables; otherwise, unless already disabled, the stored list is loaded |
| SaveGameHistoryHook.SaveGameHistory.AddToHistory | src/hooks/use-save-game-history.ts:61-99 | The new state is the add function of the old one |
| SaveGameHistoryHook.SaveGameHistory.DisableHistory | src/hooks/use-save-game-history.ts:104-109 | Sets the marker, removes the stored list and empties memory |
| SaveGameHistoryHook.SaveGameHistory.EnableHistory | src/hooks/use-save-game-history.ts:114-122 | Clears the marker and loads the stored list if there is one |
| SaveGameHistoryHook.SaveGameHistory.ClearHistory | src/hooks/use-save-game-history.ts:127-130 | Empties both lists and leaves the switch alone |
| SaveEditorModel.SaveThenUploadRoundTrip | src/lib/download-save-game.ts:23-26 | A downloaded save, uploaded again as the browser reads it, loads back the same document, given that parsing inverts serializing |
| SaveEditorModel.ShortUploadIsInvalid | src/components/save-editor/index.tsx:62-72 | Input too short to hold an IV is never loaded |
| SaveEditorModel.SaveEditor.constructor | src/components/save-editor/index.tsx:22-27 | No document, no snapshot, no file name, and no changes |
| SaveEditorModel.SaveEditor.HandleSaveDataUpdate | src/components/save-editor/index.tsx:36-38 | The document handed back by a panel becomes the current one. It is never the snapshot, so the document and the snapshot stay separate |
| SaveEditorModel.SaveEditor.HandleReset | src/components/save-editor/index.tsx:40-44 | With a snapshot, the current document becomes a new copy of it and there are no changes; without one nothing happens |
| SaveEditorModel.SaveEditor.HandleSave | src/components/save-editor/index.tsx:46-50 | Downloads the encrypted document under the file name, or `savegame.es3`; the snapshot becomes a new copy of the document, so there are no changes |
| SaveEditorModel.SaveEditor.HandleNewFile | src/components/save-editor/index.tsx:52-56 | Document, snapshot and file name all become empty |
| SaveEditorModel.SaveEditor.HandleFileUpload | src/components/save-editor/index.tsx:58-74 | A file that decodes and parses becomes both the document and a separate snapshot, under its name, and is added to the history. Otherwise nothing changes and the invalid-file toast shows. In every outcome the document and the snapshot stay separate |
| SaveEditorModel.SaveEditor.HandleSelectSave | src/components/save-editor/index.tsx:76-80 | Document and snapshot become separate copies of the chosen item's document, under its name |
| SaveEditorModel.SaveEditor.IncreaseUpgrade | src/components/save-editor/index.tsx:36-38 | An upgrade click edits the current document in place and leaves the snapshot exactly as it was |
| UploadFileComponent.CheckFileTypeSpec | src/components/upload-file.tsx:122-129 | A name passes exactly when it ends in `.es3` in any case, or is `es3` with no dot |
| UploadFileComponent.InvalidFiles | src/components/upload-file.tsx:142-144 | The list is empty exactly when every file passes the check |
| UploadFileComponent.DropSpec | src/components/upload-file.tsx:131-154 | A drop always shows `drop`. It is accepted exactly when it is one file (or several are allowed) and all pass the check, and then it replaces the files. A refused drop keeps them |
| UploadFileComponent.InputChangeSpec | src/components/upload-file.tsx:172-190 | A non-empty selection is accepted exactly when all its files pass the check, with no count limit |
| UploadFileComponent.DragAndMouseSpec | src/components/upload-file.tsx:113-162 | Drag-over forgets the files; enter and leave keep them; the mouse changes the status only while no files are chosen |
| UploadFileComponent.StatusTextSpec | src/components/upload-file.tsx:192-207 | `drop` shows the `none` text; other statuses show their own message when it is not empty |
| UploadFileComponent.UploadFile.constructor | src/components/upload-file.tsx:43-47 | The zone starts with status `none` and no files |
| UploadFileComponent.UploadFile.HandleDragEvent | src/components/upload-file.tsx:113-120 | The new state is the drag-event function of the old one |
| UploadFileComponent.UploadFile.OnDrop | src/components/upload-file.tsx:131-154 | The new state and toast are the drop function of the old state |
| UploadFileComponent.UploadFile.HandleMouseState | src/components/upload-file.tsx:156-162 | The new state is the mouse function of the old one |
| UploadFileComponent.UploadFile.HandleFileInputChange | src/components/upload-file.tsx:172-190 | The new state and toast are the input-change function of the old state |
| JsStrings.ParseInt | src/components/save-editor/time-played-editor.tsx:77 | `Number.parseInt` gives no number exactly when no digits follow the optional sign |
| JsStrings.ParseIntNatToString | src/components/save-editor/time-played-editor.tsx:77 | Parsing a number's decimal spelling gives the number |
| JsStrings.NatToStringValue | src/utils/format-utils.ts:9 | The decimal spelling of a number reads back as that number |
| JsStrings.LastSegment | src/components/upload-file.tsx:125 | The text after the last separator contains no separator |

## Left out

- The cryptographic and compression algorithms (AES-128-CBC with PKCS#7 padding, PBKDF2-HMAC-SHA1, gzip, base64, UTF-8) are parameters. Only the laws listed above are assumed about them.
- `crypto.randomBytes`: the IV is a parameter, so its freshness is not modelled.
- `EncryptEs3`: no contract of its own. It is `EncryptEs3FromBuffer` on the UTF-8 bytes, and its meaning is stated by the round-trip lemmas.
- The output-encoding parameter of `decryptEs3` is always UTF-8 here, as every caller uses the default.
- The encryption password (`src/consts/encrypton-key.ts`) is a parameter. That file is not part of this model.
- `JSON.parse` and `JSON.stringify` are parameters of the editor (`parse`, `serialize`). Comparing serialized text is modelled as equality of document values, which ignores key order. A stored history text is either a list of items or text that does not parse; a parse into some other shape is not modelled.
- `SaveGameHistoryHook.Summarize`: a document without a `runStats` category makes the source throw a TypeError inside the upload handler, after the document is already loaded. The model instead records level 1 and haul 0.
- `SaveGameHistoryHook.SaveGameHistory.AddToHistory`: the source stores the live parsed object in the in-memory history, so later in-place edits also show there. The model stores the document's value at the time of the add.
- `RunStatsHook.GetRunStatValue`, `RunStatsHook.GetItemPurchasedValue`: the source's types promise that the map and the key exist. On a document without the map the source throws a TypeError, and for a missing key it returns `undefined`. The model requires both to be present.
- `RunStatsHook.UpdateRunStatValue`, `RunStatsHook.UpdatePurchasedItemValue`: on a document without the map the source throws a TypeError. When only `itemsPurchasedTotal` is missing, that happens after `itemsPurchased` has already been written. The model requires the maps to be present.
- `RunStatsHook.HandleStatChange`, `RunStatsHook.HandleItemsPurchasedChange`: a missing map again makes the source throw a TypeError. A missing stat or item reads as `undefined`, so the source writes `NaN` (`Math.max(0, NaN)`). The model requires the key to be present, since its numbers have no `NaN`.
- The mount effect re-runs whenever `disabled` changes. The model offers `Mount` as one explicit step, and a re-run after `DisableHistory` or `EnableHistory` reaches the same state.
- `UploadFileComponent.CheckFileType`: `toLowerCase` is modelled on ASCII letters only. No other character lower-cases to `e`, `s` or `3`, so the outcome is the same.
- `JsStrings.ParseInt`: leading white space, and what a number input never produces (exponents, hexadecimal), is not modelled.
- Numbers are unbounded integers. Fractional and negative play times are not modelled: `FormatUtils.SplitSeconds` and the time-played editor take a natural number of seconds.
- Browser I/O is not modelled: the FileReader effect turning chosen files into data URLs, object URLs, the Blob and anchor of the download, toasts, clipboard copy and the `fileList` prop.
- The avatar lookup (`fetchAvatars`), the GitHub star count, rendering, icons, localisation, theming and the drag handling of the health bar are not modelled. Only the bar's maximum-health formula is used, as a cross-check.
- Asynchrony is not modelled: the upload and download handlers run as single steps.
