/**
 * The time-played dialog: it splits the stored seconds into three number fields when opened,
 * lets each field be edited as text, and on save emits the recombined total.
 */
module TimePlayedEditorModel {
  import opened Wrappers
  import opened JsStrings
  import FormatUtils

  /** The fields the dialog fills from `timePlayed`. */
  function OpenedFields(timePlayed: nat): (int, int, int) {
    (timePlayed / 3600, (timePlayed % 3600) / 60, timePlayed % 60)
  }

  /** The total the dialog emits; the fields are not range-checked. */
  function Total(hours: int, minutes: int, seconds: int): int {
    hours * 3600 + minutes * 60 + seconds
  }

  /** `Number.parseInt(text) || 0`: text that does not parse, and "-0", give 0. */
  function FieldValue(text: string): int {
    match ParseInt(text)
    case None => 0
    case Some(n) => n
  }

  /** Opening shows minutes and seconds in [0, 59], the same split as the formatted text, and
      saving unedited fields gives back the stored time. */
  lemma OpenedFieldsSpec(timePlayed: nat)
    ensures 0 <= OpenedFields(timePlayed).1 < 60 && 0 <= OpenedFields(timePlayed).2 < 60
    ensures var (h, m, s) := FormatUtils.SplitSeconds(timePlayed); OpenedFields(timePlayed) == (h, m, s)
    ensures var (h, m, s) := OpenedFields(timePlayed); Total(h, m, s) == timePlayed
  {
    var (h, m, s) := FormatUtils.SplitSeconds(timePlayed);
    assert 3600 * h + 60 * m + s == timePlayed;
  }

  /** A field reads back any number written in decimal, and anything without digits as 0. */
  lemma {:induction false} FieldValueSpec(text: string, n: nat)
    ensures FieldValue(NatToString(n)) == n
    ensures |DigitPrefix(if |text| > 0 && text[0] in "+-" then text[1..] else text)| == 0 ==> FieldValue(text) == 0
  {
    ParseIntNatToString(n);
  }

  /** Saving does not normalise: minutes past 59 simply carry into the total. */
  lemma TotalCarries(hours: int, minutes: int, seconds: int)
    ensures Total(hours, minutes + 60, seconds) == Total(hours + 1, minutes, seconds)
    ensures Total(hours, minutes, seconds + 60) == Total(hours, minutes + 1, seconds)
  {
  }

  class TimePlayedEditor {
    var isOpen: bool
    var hours: int
    var minutes: int
    var seconds: int

    /** The initial state, split from the `timePlayed` prop at mount. */
    constructor (timePlayed: nat)
      ensures !isOpen && (hours, minutes, seconds) == OpenedFields(timePlayed)
    {
      isOpen := false;
      hours := timePlayed / 3600;
      minutes := (timePlayed % 3600) / 60;
      seconds := timePlayed % 60;
    }

    /** `handleOpen`, reading the current `timePlayed` prop. */
    method HandleOpen(timePlayed: nat)
      modifies this
      ensures isOpen && (hours, minutes, seconds) == OpenedFields(timePlayed)
    {
      hours := timePlayed / 3600;
      minutes := (timePlayed % 3600) / 60;
      seconds := timePlayed % 60;
      isOpen := true;
    }

    /** `handleSave`: the value passed to `onTimePlayedChange`, then the dialog closes. */
    method HandleSave() returns (emitted: int)
      modifies this`isOpen
      ensures emitted == Total(hours, minutes, seconds)
      ensures !isOpen
    {
      emitted := hours * 3600 + minutes * 60 + seconds;
      isOpen := false;
    }

    /** The cancel button: closes without emitting anything. */
    method Cancel()
      modifies this`isOpen
      ensures !isOpen
    {
      isOpen := false;
    }

    method ChangeHours(text: string)
      modifies this`hours
      ensures hours == FieldValue(text)
    {
      hours := FieldValue(text);
    }

    method ChangeMinutes(text: string)
      modifies this`minutes
      ensures minutes == FieldValue(text)
    {
      minutes := FieldValue(text);
    }

    method ChangeSeconds(text: string)
      modifies this`seconds
      ensures seconds == FieldValue(text)
    {
      seconds := FieldValue(text);
    }
  }

  /** Opening the dialog and saving without edits emits the stored time. */
  method OpenThenSave(timePlayed: nat) returns (emitted: int)
    ensures emitted == timePlayed
  {
    var editor := new TimePlayedEditor(timePlayed);
    editor.HandleOpen(timePlayed);
    OpenedFieldsSpec(timePlayed);
    emitted := editor.HandleSave();
  }

  /** Typing a time into the three fields and saving emits that time. */
  method TypeThenSave(timePlayed: nat, h: nat, m: nat, s: nat) returns (emitted: int)
    ensures emitted == Total(h, m, s)
  {
    var editor := new TimePlayedEditor(timePlayed);
    editor.HandleOpen(timePlayed);
    editor.ChangeHours(NatToString(h));
    editor.ChangeMinutes(NatToString(m));
    editor.ChangeSeconds(NatToString(s));
    FieldValueSpec("", h);
    FieldValueSpec("", m);
    FieldValueSpec("", s);
    emitted := editor.HandleSave();
  }
}
