/**
 * The upload drop zone: its drag status, the file-type check, and which dropped or selected
 * files it accepts.
 */
module UploadFileComponent {
  import opened Wrappers
  import opened JsStrings

  const FileExtension := "es3"

  datatype DragStatus = Over | Enter | Leave | Drop | MouseEnter | NoStatus

  /** A dropped or selected file; only its name matters to the checks. */
  datatype FileInfo = FileInfo(name: string)

  /** The error toast an operation raises, if any. */
  datatype Toast = NoToast | SelectOneFile | InvalidFileType

  /** `checkFileType`: the text after the last '.', lower-cased, is the extension. */
  function CheckFileType(name: string): bool {
    ToLowerAscii(LastSegment(name, '.')) == ToLowerAscii(FileExtension)
  }

  /** The name ends in ".es3" in any letter case, or is "es3" itself with no dot at all. */
  predicate HasEs3Extension(name: string) {
    || (|name| >= 4 && name[|name| - 4] == '.' && ToLowerAscii(name[|name| - 3..]) == "es3")
    || ('.' !in name && ToLowerAscii(name) == "es3")
  }

  lemma LowerEs3HasNoDot(s: string)
    requires ToLowerAscii(s) == "es3"
    ensures '.' !in s && |s| == 3
  {
    assert forall i | 0 <= i < 3 :: LowerChar(s[i]) == "es3"[i];
  }

  /** The type check accepts exactly the names with an "es3" extension. */
  lemma {:induction false} CheckFileTypeSpec(name: string)
    ensures CheckFileType(name) <==> HasEs3Extension(name)
  {
    assert ToLowerAscii(FileExtension) == "es3";
    match LastIndexOfChar(name, '.')
    case None =>
    case Some(i) =>
      var seg := name[i + 1..];
      if CheckFileType(name) {
        LowerEs3HasNoDot(seg);
        assert name[|name| - 3..] == seg;
      }
      if |name| >= 4 && name[|name| - 4] == '.' && ToLowerAscii(name[|name| - 3..]) == "es3" {
        LowerEs3HasNoDot(name[|name| - 3..]);
        assert forall k | i + 1 <= k < |name| :: name[k] == seg[k - (i + 1)];
        assert forall k | |name| - 3 <= k < |name| :: name[k] == name[|name| - 3..][k - (|name| - 3)];
        assert i == |name| - 4;
      }
  }

  /** `[...files].filter(file => !checkFileType(file))`. */
  function InvalidFiles(files: seq<FileInfo>): (r: seq<FileInfo>)
    ensures |r| == 0 <==> forall f | f in files :: CheckFileType(f.name)
    ensures forall f | f in r :: f in files && !CheckFileType(f.name)
  {
    if files == [] then []
    else (if CheckFileType(files[0].name) then [] else [files[0]]) + InvalidFiles(files[1..])
  }

  datatype UploadState = UploadState(dragStatus: DragStatus, files: Option<seq<FileInfo>>)

  // ----- the handlers as functions of the state -----

  /** `handleDragEvent`: a drag-over also forgets the chosen files. */
  function AfterDragEvent(s: UploadState, status: DragStatus): UploadState
    requires status == Over || status == Enter || status == Leave
  {
    UploadState(status, if status == Over then None else s.files)
  }

  /** `onDrop`: the status is `drop` whatever happens next. */
  function AfterDrop(s: UploadState, multiple: bool, dropped: seq<FileInfo>): (UploadState, Toast) {
    var s' := s.(dragStatus := Drop);
    if !multiple && |dropped| > 1 then (s', SelectOneFile)
    else if |InvalidFiles(dropped)| > 0 then (s', InvalidFileType)
    else (s'.(files := Some(dropped)), NoToast)
  }

  /** `handleMouseState`: only while no files are chosen. */
  function AfterMouse(s: UploadState, isEnter: bool): UploadState {
    if s.files.Some? then s else s.(dragStatus := if isEnter then MouseEnter else NoStatus)
  }

  /** `handleFileInputChange`: an empty or missing selection is ignored. */
  function AfterInputChange(s: UploadState, selected: Option<seq<FileInfo>>): (UploadState, Toast) {
    if selected.None? || |selected.value| == 0 then (s, NoToast)
    else if |InvalidFiles(selected.value)| > 0 then (s, InvalidFileType)
    else (s.(files := Some(selected.value)), NoToast)
  }

  /** `getStatusText`, with the translator `t` passed in: statuses without a message, and
      messages that translate to the empty string, fall back to `status.none`. */
  function StatusText(status: DragStatus, t: string -> string): string {
    var key := match status
      case Over => Some("status.over")
      case Enter => Some("status.enter")
      case Leave => Some("status.leave")
      case NoStatus => Some("status.none")
      case MouseEnter => Some("status.mouseEnter")
      case Drop => None;
    if key.Some? && t(key.value) != "" then t(key.value) else t("status.none")
  }

  // ----- what the handlers promise -----

  /** A drop always shows `drop`; it is accepted exactly when it is a single file (or the zone
      takes several) and every file has the extension, and then it replaces the files; a
      refused drop leaves the files as they were. */
  lemma {:induction false} DropSpec(s: UploadState, multiple: bool, dropped: seq<FileInfo>)
    ensures var (r, toast) := AfterDrop(s, multiple, dropped);
      && r.dragStatus == Drop
      && (toast == NoToast <==> (multiple || |dropped| <= 1) && forall f | f in dropped :: HasEs3Extension(f.name))
      && (toast == NoToast ==> r.files == Some(dropped))
      && (toast != NoToast ==> r.files == s.files)
      && (!multiple && |dropped| > 1 ==> toast == SelectOneFile)
  {
    forall f | f in dropped {
      CheckFileTypeSpec(f.name);
    }
  }

  /** A selection in the file dialog is checked the same way, without the count limit. */
  lemma {:induction false} InputChangeSpec(s: UploadState, selected: seq<FileInfo>)
    requires |selected| > 0
    ensures var (r, toast) := AfterInputChange(s, Some(selected));
      && r.dragStatus == s.dragStatus
      && (toast == NoToast <==> forall f | f in selected :: HasEs3Extension(f.name))
      && r.files == if toast == NoToast then Some(selected) else s.files
  {
    forall f | f in selected {
      CheckFileTypeSpec(f.name);
    }
  }

  /** Drag-over forgets the files; the mouse changes the status only while no files are chosen. */
  lemma DragAndMouseSpec(s: UploadState, isEnter: bool)
    ensures AfterDragEvent(s, Over).files == None
    ensures AfterDragEvent(s, Enter).files == s.files && AfterDragEvent(s, Leave).files == s.files
    ensures AfterMouse(s, isEnter).files == s.files
    ensures s.files.None? ==> AfterMouse(s, isEnter).dragStatus == if isEnter then MouseEnter else NoStatus
    ensures s.files.Some? ==> AfterMouse(s, isEnter) == s
  {
  }

  /** A dropped zone shows the `none` text; every other status its own message when that is
      not empty. */
  lemma StatusTextSpec(status: DragStatus, t: string -> string)
    ensures status == Drop ==> StatusText(status, t) == t("status.none")
    ensures status == Over && t("status.over") != "" ==> StatusText(status, t) == t("status.over")
    ensures status == MouseEnter && t("status.mouseEnter") != "" ==> StatusText(status, t) == t("status.mouseEnter")
  {
  }

  // ----- the component instance -----

  class UploadFile {
    const multiple: bool
    var dragStatus: DragStatus
    var files: Option<seq<FileInfo>>

    function State(): UploadState
      reads this
    {
      UploadState(dragStatus, files)
    }

    constructor (multiple: bool)
      ensures this.multiple == multiple
      ensures dragStatus == NoStatus && files == None
    {
      this.multiple := multiple;
      dragStatus := NoStatus;
      files := None;
    }

    method HandleDragEvent(status: DragStatus)
      requires status == Over || status == Enter || status == Leave
      modifies this
      ensures State() == AfterDragEvent(old(State()), status)
    {
      dragStatus := status;
      if status == Over {
        files := None;
      }
    }

    method OnDrop(droppedFiles: seq<FileInfo>) returns (toast: Toast)
      modifies this
      ensures (State(), toast) == AfterDrop(old(State()), multiple, droppedFiles)
    {
      dragStatus := Drop;
      if !multiple && |droppedFiles| > 1 {
        return SelectOneFile;
      }
      var invalidFiles := InvalidFiles(droppedFiles);
      if |invalidFiles| > 0 {
        return InvalidFileType;
      }
      files := Some(droppedFiles);
      toast := NoToast;
    }

    method HandleMouseState(isEnter: bool)
      modifies this
      ensures State() == AfterMouse(old(State()), isEnter)
    {
      if files.Some? {
        return;
      }
      dragStatus := if isEnter then MouseEnter else NoStatus;
    }

    method HandleFileInputChange(selectedFiles: Option<seq<FileInfo>>) returns (toast: Toast)
      modifies this
      ensures (State(), toast) == AfterInputChange(old(State()), selectedFiles)
    {
      toast := NoToast;
      if selectedFiles.Some? && |selectedFiles.value| > 0 {
        var invalidFiles := InvalidFiles(selectedFiles.value);
        if |invalidFiles| > 0 {
          return InvalidFileType;
        }
        files := selectedFiles;
      }
    }
  }
}
