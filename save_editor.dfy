/**
 * The editor page: the document being edited, the snapshot it was loaded or last saved as,
 * the file name, and the handlers that load, reset, save and discard them.  The document
 * text is decrypted with the ES3 codec and parsed by a `parse` parameter standing for
 * `JSON.parse`; saving serializes through `serialize`, standing for `JSON.stringify`.
 */
module SaveEditorModel {
  import opened Wrappers
  import opened SaveGameModel
  import opened Es3Crypto
  import SaveGameHistoryHook
  import PlayerUpgradesHook
  import PlayerUpgradesPanel

  const DefaultFileName := "savegame.es3"

  /** What the drop zone hands over: the name and the file's data URL. */
  datatype UploadedFile = UploadedFile(name: string, base64: string)

  /** How an upload ended: no file, a loaded document, or the "invalid file" toast. */
  datatype UploadOutcome = NoFile | Loaded | InvalidFile

  /** The encrypted file a save downloads. */
  datatype Download = Download(fileName: string, bytes: Bytes)

  /** Decrypting and parsing an uploaded file; `None` wherever the source throws. */
  function DecodeUpload(p: Primitives, file: UploadedFile, password: string,
                        parse: string -> Option<SaveGame>): Option<SaveGame>
  {
    match DecryptEs3(p, file.base64, password)
    case Failure(_) => None
    case Success(decrypted) => parse(decrypted)
  }

  /** The bytes `downloadSaveGame` writes for a document. */
  function DownloadBytes(p: Primitives, iv: Bytes, doc: SaveGame, password: string,
                         serialize: SaveGame -> string): Bytes
    requires |iv| == IvLength
  {
    EncryptEs3(p, iv, serialize(doc), password)
  }

  /** A downloaded save, read back by the browser as a data URL and uploaded again, gives back
      the document, whenever `parse` inverts `serialize` on it. */
  lemma {:induction false} SaveThenUploadRoundTrip(p: Primitives, iv: Bytes, doc: SaveGame, password: string,
                                                  serialize: SaveGame -> string, parse: string -> Option<SaveGame>,
                                                  name: string, mediaType: string)
    requires Lawful(p) && |iv| == IvLength
    requires parse(serialize(doc)) == Some(doc)
    requires ',' !in mediaType
    ensures var text := p.base64Encode(DownloadBytes(p, iv, doc, password, serialize));
      DecodeUpload(p, UploadedFile(name, "data:" + mediaType + ";" + DataUriMarker + text), password, parse) == Some(doc)
  {
    Es3DataUriRoundTrip(p, iv, serialize(doc), password, false, mediaType);
  }

  /** Text that does not decode is never loaded, whatever `parse` would make of it. */
  lemma ShortUploadIsInvalid(p: Primitives, file: UploadedFile, password: string, parse: string -> Option<SaveGame>)
    requires |p.base64Decode(StripDataUriPrefix(file.base64))| < IvLength
    ensures DecodeUpload(p, file, password, parse) == None
  {
  }

  class SaveEditor {
    var fileName: Option<string>
    var saveGame: Option<LiveSaveGame>
    var originalSaveData: Option<LiveSaveGame>
    const historyHook: SaveGameHistoryHook.SaveGameHistory

    /** The nested-dictionary objects of both snapshots. */
    ghost function Documents(): set<object>
      reads this
    {
      (if saveGame.Some? then {saveGame.value.dictionaryOfDictionaries} else {})
      + (if originalSaveData.Some? then {originalSaveData.value.dictionaryOfDictionaries} else {})
    }

    /** The snapshot never shares its nested dictionaries with the document being edited, so
        edits in place cannot reach it. */
    ghost predicate Valid()
      reads this
    {
      saveGame.Some? && originalSaveData.Some? ==>
        saveGame.value.dictionaryOfDictionaries != originalSaveData.value.dictionaryOfDictionaries
    }

    /** `hasChanges`: both snapshots exist and serialize differently. */
    predicate HasChanges()
      reads this, Documents()
    {
      saveGame.Some? && originalSaveData.Some? && saveGame.value.View() != originalSaveData.value.View()
    }

    constructor (historyHook: SaveGameHistoryHook.SaveGameHistory)
      ensures this.historyHook == historyHook
      ensures fileName == None && saveGame == None && originalSaveData == None
      ensures Valid() && !HasChanges()
    {
      this.historyHook := historyHook;
      fileName := None;
      saveGame := None;
      originalSaveData := None;
    }

    /** `handleSaveDataUpdate`: whatever a panel hands back becomes the current document.
        Panels hand back the current document, never the snapshot, so the two stay apart. */
    method HandleSaveDataUpdate(updatedSaveData: LiveSaveGame)
      requires Valid()
      requires originalSaveData.Some? ==>
        updatedSaveData.dictionaryOfDictionaries != originalSaveData.value.dictionaryOfDictionaries
      modifies this`saveGame
      ensures saveGame == Some(updatedSaveData)
      ensures Valid()
    {
      saveGame := Some(updatedSaveData);
    }

    /** `handleReset`. */
    method HandleReset()
      requires Valid()
      modifies this`saveGame
      ensures old(originalSaveData).None? ==> saveGame == old(saveGame)
      ensures old(originalSaveData).Some? ==>
        saveGame.Some? && fresh(saveGame.value.dictionaryOfDictionaries)
        && saveGame.value.View() == originalSaveData.value.View() && !HasChanges()
      ensures Valid()
    {
      if originalSaveData.Some? {
        var copy := StructuredClone(originalSaveData.value.View());
        saveGame := Some(copy);
      }
    }

    /** `handleSave`: the download (with `iv` standing for the random IV) and a new snapshot. */
    method HandleSave(p: Primitives, iv: Bytes, password: string, serialize: SaveGame -> string)
      returns (download: Option<Download>)
      requires |iv| == IvLength && Valid()
      modifies this`originalSaveData
      ensures old(saveGame).None? ==> download == None && originalSaveData == old(originalSaveData)
      ensures old(saveGame).Some? ==>
        && download == Some(Download(old(fileName).GetOr(DefaultFileName),
                                     DownloadBytes(p, iv, saveGame.value.View(), password, serialize)))
        && originalSaveData.Some? && fresh(originalSaveData.value.dictionaryOfDictionaries)
        && originalSaveData.value.View() == saveGame.value.View()
        && !HasChanges()
      ensures Valid()
    {
      if saveGame.None? {
        return None;
      }
      var doc := saveGame.value.View();
      download := Some(Download(if fileName.Some? then fileName.value else DefaultFileName,
                                EncryptEs3(p, iv, serialize(doc), password)));
      var copy := StructuredClone(doc);
      originalSaveData := Some(copy);
    }

    /** `handleNewFile`. */
    method HandleNewFile()
      modifies this`saveGame, this`originalSaveData, this`fileName
      ensures saveGame == None && originalSaveData == None && fileName == None
      ensures Valid() && !HasChanges()
    {
      saveGame := None;
      originalSaveData := None;
      fileName := None;
    }

    /** `handleFileUpload`, with `now` for `Date.now()`. */
    method HandleFileUpload(files: seq<UploadedFile>, p: Primitives, password: string,
                            parse: string -> Option<SaveGame>, now: int)
      returns (outcome: UploadOutcome)
      requires Valid()
      modifies this, historyHook, historyHook.storage
      ensures Valid()
      ensures |files| == 0 ==> outcome == NoFile
      ensures outcome != Loaded ==>
        && saveGame == old(saveGame) && originalSaveData == old(originalSaveData) && fileName == old(fileName)
        && unchanged(historyHook, historyHook.storage)
      ensures |files| > 0 ==> (outcome == Loaded <==> DecodeUpload(p, files[0], password, parse).Some?)
      ensures outcome == Loaded ==>
        var parsed := DecodeUpload(p, files[0], password, parse).value;
        && saveGame.Some? && originalSaveData.Some?
        && fresh(saveGame.value.dictionaryOfDictionaries) && fresh(originalSaveData.value.dictionaryOfDictionaries)
        && saveGame.value.View() == parsed && originalSaveData.value.View() == parsed
        && fileName == Some(files[0].name)
        && historyHook.State() == SaveGameHistoryHook.AfterAdd(old(historyHook.State()), files[0].name, parsed, now)
      ensures outcome == Loaded ==> !HasChanges()
    {
      if |files| == 0 {
        return NoFile;
      }
      var decrypted := DecryptEs3(p, files[0].base64, password);
      if decrypted.Failure? {
        return InvalidFile;
      }
      var parsedText := parse(decrypted.value);
      if parsedText.None? {
        return InvalidFile;
      }
      var parsed := parsedText.value;
      var current := StructuredClone(parsed);
      var original := StructuredClone(parsed);
      saveGame := Some(current);
      originalSaveData := Some(original);
      fileName := Some(files[0].name);
      historyHook.AddToHistory(files[0].name, parsed, now);
      outcome := Loaded;
    }

    /** `handleSelectSave`: both snapshots become copies of the chosen item's document. */
    method HandleSelectSave(historyItem: SaveGameHistoryHook.HistoryItem)
      modifies this`saveGame, this`originalSaveData, this`fileName
      ensures saveGame.Some? && originalSaveData.Some?
      ensures fresh(saveGame.value.dictionaryOfDictionaries) && fresh(originalSaveData.value.dictionaryOfDictionaries)
      ensures saveGame.value.View() == historyItem.saveGame && originalSaveData.value.View() == historyItem.saveGame
      ensures fileName == Some(historyItem.fileName)
      ensures Valid() && !HasChanges()
    {
      var current := StructuredClone(historyItem.saveGame);
      var original := StructuredClone(historyItem.saveGame);
      saveGame := Some(current);
      originalSaveData := Some(original);
      fileName := Some(historyItem.fileName);
    }

    /** An upgrade control's `onIncrease` on the page: the edit lands in the current document
        and every callback sets it again, while the snapshot stays exactly as it was. */
    method IncreaseUpgrade(playerId: string, upgrade: PlayerUpgradesHook.UpgradeType)
      requires saveGame.Some? && Valid()
      modifies this`saveGame, saveGame.value.dictionaryOfDictionaries
      ensures saveGame == old(saveGame)
      ensures saveGame.value.dictionaryOfDictionaries.value ==
        if upgrade == PlayerUpgradesHook.UpgradeHealth
        then PlayerUpgradesPanel.HealthIncreased(old(saveGame.value.dictionaryOfDictionaries.value), playerId)
        else PlayerUpgradesHook.Increased(old(saveGame.value.dictionaryOfDictionaries.value), playerId, upgrade)
      ensures originalSaveData == old(originalSaveData)
      ensures originalSaveData.Some? ==> originalSaveData.value.View() == old(originalSaveData.value.View())
      ensures Valid()
    {
      var current := saveGame.value;
      var notified := PlayerUpgradesPanel.OnIncrease(current, playerId, upgrade);
      var i := 0;
      while i < |notified|
        invariant 0 <= i <= |notified|
        invariant saveGame == Some(current) && Valid()
        invariant current.dictionaryOfDictionaries.value ==
          if upgrade == PlayerUpgradesHook.UpgradeHealth
          then PlayerUpgradesPanel.HealthIncreased(old(current.dictionaryOfDictionaries.value), playerId)
          else PlayerUpgradesHook.Increased(old(current.dictionaryOfDictionaries.value), playerId, upgrade)
        modifies this`saveGame
      {
        assert notified[i] in notified;
        HandleSaveDataUpdate(notified[i]);
        i := i + 1;
      }
    }
  }
}
