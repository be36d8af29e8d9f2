/**
 * The main window's own state and dialogs: the output field's font size, stepped by four
 * between its smallest and largest sizes; the credentials dialog, whose values are stored
 * only when it is accepted with both fields filled in; the Google Sheets export dialog,
 * which hands back the file name and the folder id taken from the folder's address; and
 * the result messages shown after either dialog. The dialogs' user input is given as
 * values, and the stored connection information is passed in and returned.
 */
module GuiWindow {
  import opened Wrappers
  import opened Strings
  import opened Connection

  // ------------------------------------------------------------- font size

  const InitialFontSize: int := 12
  const SmallestFontSize: int := 8
  const LargestFontSize: int := 52
  const FontStep: int := 4

  /** The sizes the output font can have: a multiple of the step between the bounds. */
  predicate FontSizeValid(size: int)
  {
    SmallestFontSize <= size <= LargestFontSize && size % FontStep == 0
  }

  /** `increase_font`'s new size: one step up unless already at the largest size. */
  function IncreasedFont(size: int): (r: int)
    ensures r == size <==> size >= LargestFontSize
    ensures r != size ==> r == size + FontStep
    ensures FontSizeValid(size) ==> FontSizeValid(r)
  {
    if size < LargestFontSize then size + FontStep else size
  }

  /**
   * `decrease_font`'s new size: one step down unless already at the smallest size. From
   * a valid size above the smallest, a step up undoes it.
   */
  function DecreasedFont(size: int): (r: int)
    ensures r == size <==> size <= SmallestFontSize
    ensures r != size ==> r == size - FontStep
    ensures FontSizeValid(size) ==> FontSizeValid(r)
    ensures FontSizeValid(size) && size > SmallestFontSize ==> IncreasedFont(r) == size
  {
    if size > SmallestFontSize then size - FontStep else size
  }

  /** From a valid size below the largest, a step down undoes a step up. */
  lemma DecreaseUndoesIncrease(size: int)
    requires FontSizeValid(size) && size < LargestFontSize
    ensures DecreasedFont(IncreasedFont(size)) == size
  {
  }

  /** The size after pressing the buttons in order: `true` for the increase button, `false` for decrease. */
  function FontAfter(presses: seq<bool>, size: int): int
  {
    if |presses| == 0 then size
    else FontAfter(presses[1..], if presses[0] then IncreasedFont(size) else DecreasedFont(size))
  }

  /** Whatever buttons are pressed, a valid size stays valid. */
  lemma {:induction false} FontAfterValid(presses: seq<bool>, size: int)
    requires FontSizeValid(size)
    ensures FontSizeValid(FontAfter(presses, size))
  {
    if |presses| > 0 {
      FontAfterValid(presses[1..], if presses[0] then IncreasedFont(size) else DecreasedFont(size));
    }
  }

  /** Pressing increase `k` times from a valid size that stays within bounds adds `k` steps. */
  lemma {:induction false} FontAfterIncreases(k: nat, size: int)
    requires FontSizeValid(size) && size + k * FontStep <= LargestFontSize
    ensures FontAfter(seq(k, _ => true), size) == size + k * FontStep
  {
    if k > 0 {
      var presses := seq(k, _ => true);
      assert presses[1..] == seq(k - 1, _ => true);
      FontAfterIncreases(k - 1, size + FontStep);
    }
  }

  /** Every valid size is reached from the initial size by some presses of the buttons. */
  lemma FontSizesReachable(size: int)
    requires FontSizeValid(size)
    ensures exists presses :: FontAfter(presses, InitialFontSize) == size
  {
    if size >= InitialFontSize {
      var k := (size - InitialFontSize) / FontStep;
      FontAfterIncreases(k, InitialFontSize);
      assert FontAfter(seq(k, _ => true), InitialFontSize) == size;
    } else {
      assert size == SmallestFontSize;
      assert FontAfter([false], InitialFontSize) == size;
    }
  }

  // --------------------------------------------------------------- messages

  datatype Icon = Information | Critical

  /** A message box: its title, its text and its icon. */
  datatype MessageBox = MessageBox(title: string, text: string, icon: Icon)

  const ResultsTitle: string := "Results"
  const CredsUpdatedText: string := "Your credentials have been updated!"
  const CredsNotUpdatedText: string := "Your credentials have NOT been updated!"
  const ExportStartedText: string := "Your file is being created!"
  const ExportNotStartedText: string := "Your file has not been created!"

  /** `change_creds_successful`: an information box on success, a critical one otherwise, with different texts. */
  function CredsResultMessage(success: bool): (m: MessageBox)
    ensures m.title == ResultsTitle
    ensures m.icon == Information <==> success
    ensures m.text == CredsUpdatedText || m.text == CredsNotUpdatedText
    ensures m.text == CredsUpdatedText <==> success
  {
    MessageBox(ResultsTitle, if success then CredsUpdatedText else CredsNotUpdatedText,
               if success then Information else Critical)
  }

  /** `export_googlesheet_successful`: an information box on success, a critical one otherwise, with different texts. */
  function ExportResultMessage(success: bool): (m: MessageBox)
    ensures m.title == ResultsTitle
    ensures m.icon == Information <==> success
    ensures m.text == ExportStartedText || m.text == ExportNotStartedText
    ensures m.text == ExportStartedText <==> success
  {
    MessageBox(ResultsTitle, if success then ExportStartedText else ExportNotStartedText,
               if success then Information else Critical)
  }

  /** The two outcomes of either dialog are told apart by their texts. */
  lemma ResultMessagesDiffer()
    ensures CredsResultMessage(true).text != CredsResultMessage(false).text
    ensures ExportResultMessage(true).text != ExportResultMessage(false).text
  {
    assert |CredsUpdatedText| != |CredsNotUpdatedText|;
    assert |ExportStartedText| != |ExportNotStartedText|;
  }

  // ---------------------------------------------------------------- dialogs

  /** A dialog's input is taken only when it is accepted with both of its fields filled in. */
  predicate Accepted(ok: bool, first: string, second: string)
  {
    ok && |first| > 0 && |second| > 0
  }

  const FolderMarker: string := "folders/"

  /**
   * `strip_folder_id`: the piece of the address after its first `"folders/"`, up to the
   * next one or the end; an IndexError when the address has none.
   */
  function StripFolderId(url: string): (r: Result<string>)
    ensures r.Err? <==> !Contains(url, FolderMarker)
    ensures r.Err? ==> r.error == IndexError
  {
    var parts := Split(url, FolderMarker);
    if |parts| < 2 then Err(IndexError) else Ok(parts[1])
  }

  /** A folder address ending in the id gives the id, when `"folders/"` occurs only before it. */
  lemma StripFolderIdOfAddress(prefix: string, id: string)
    requires forall j: nat :: j < |prefix| ==> !OccursAt(prefix + FolderMarker, FolderMarker, j)
    requires !Contains(id, FolderMarker)
    ensures StripFolderId(prefix + FolderMarker + id) == Ok(id)
  {
    SplitOnFirst(prefix, FolderMarker, id);
    SplitNoOccurrence(id, FolderMarker);
  }

  /** A later `"folders/"` ends the id: the rest of the address is dropped. */
  lemma StripFolderIdStopsAtNext(prefix: string, id: string, rest: string)
    requires forall j: nat :: j < |prefix| ==> !OccursAt(prefix + FolderMarker, FolderMarker, j)
    requires forall j: nat :: j < |id| ==> !OccursAt(id + FolderMarker, FolderMarker, j)
    ensures StripFolderId(prefix + FolderMarker + id + FolderMarker + rest) == Ok(id)
  {
    SplitOnFirst(id, FolderMarker, rest);
    assert prefix + FolderMarker + id + FolderMarker + rest == prefix + FolderMarker + (id + FolderMarker + rest);
    SplitOnFirst(prefix, FolderMarker, id + FolderMarker + rest);
  }

  /** What the export dialog hands back: the file name and the folder id. */
  datatype ExportTarget = ExportTarget(filename: string, folderId: string)

  // ------------------------------------------------------------- the window

  class Window {
    /** `font_size`: the size the output field is set to by the font buttons. */
    var fontSize: int
    /** The output field's font point size. */
    var textPointSize: int
    /** The output field's text, which the font buttons keep. */
    var outputText: string

    predicate Valid()
      reads this
    {
      FontSizeValid(fontSize)
    }

    /** `setup_ui`: the font size starts at 12 and the output field is empty. */
    constructor()
      ensures fontSize == InitialFontSize && outputText == ""
      ensures Valid()
    {
      fontSize := InitialFontSize;
      textPointSize := InitialFontSize;
      outputText := "";
    }

    /** `increase_font`: one step up below the largest size, and the field shows its text at the new size. */
    method IncreaseFont()
      modifies this
      ensures fontSize == IncreasedFont(old(fontSize))
      ensures textPointSize == if fontSize != old(fontSize) then fontSize else old(textPointSize)
      ensures outputText == old(outputText)
      ensures old(Valid()) ==> Valid()
    {
      if fontSize < LargestFontSize {
        var text := outputText;
        fontSize := fontSize + FontStep;
        textPointSize := fontSize;
        outputText := text;
      }
    }

    /** `decrease_font`: one step down above the smallest size, and the field shows its text at the new size. */
    method DecreaseFont()
      modifies this
      ensures fontSize == DecreasedFont(old(fontSize))
      ensures textPointSize == if fontSize != old(fontSize) then fontSize else old(textPointSize)
      ensures outputText == old(outputText)
      ensures old(Valid()) ==> Valid()
    {
      if fontSize > SmallestFontSize {
        var text := outputText;
        fontSize := fontSize - FontStep;
        textPointSize := fontSize;
        outputText := text;
      }
    }

    /**
     * `creds_popup_box`: the connection information with the new user name and password
     * when the dialog is accepted with both filled in, and unchanged otherwise; the result
     * box reports which.
     */
    method CredsPopupBox(stored: map<string, string>, ok: bool, userName: string, password: string)
      returns (newStored: map<string, string>, shown: MessageBox)
      ensures Accepted(ok, userName, password) ==> newStored == StoreUserInfo(stored, userName, password)
      ensures !Accepted(ok, userName, password) ==> newStored == stored
      ensures shown == CredsResultMessage(Accepted(ok, userName, password))
      ensures shown.icon == Information <==> ("user_name" in newStored && newStored["user_name"] == userName
        && "password" in newStored && newStored["password"] == password && |userName| > 0 && |password| > 0 && ok)
    {
      if ok && |userName| > 0 && |password| > 0 {
        newStored := StoreUserInfo(stored, userName, password);
        shown := CredsResultMessage(true);
      } else {
        newStored := stored;
        shown := CredsResultMessage(false);
      }
    }

    /**
     * `google_filename_popup_box`: when the dialog is accepted with both filled in, the file
     * name and the folder id of the address, reported as started; an address without
     * `"folders/"` is an IndexError before any box is shown. Otherwise `None`, reported as
     * not started.
     */
    method GoogleFilenamePopupBox(ok: bool, filename: string, folderUrl: string)
      returns (r: Result<Option<ExportTarget>>, shown: Option<MessageBox>)
      ensures r.Err? <==> Accepted(ok, filename, folderUrl) && !Contains(folderUrl, FolderMarker)
      ensures r.Err? ==> r.error == IndexError && shown.None?
      ensures r.Ok? ==> (r.value.Some? <==> Accepted(ok, filename, folderUrl))
      ensures r.Ok? ==> shown == Some(ExportResultMessage(r.value.Some?))
      ensures r.Ok? && r.value.Some? ==> (r.value.value.filename == filename
        && Ok(r.value.value.folderId) == StripFolderId(folderUrl))
    {
      if ok && |filename| > 0 && |folderUrl| > 0 {
        var folderId := StripFolderId(folderUrl);
        if folderId.Err? {
          return Err(folderId.error), None;
        }
        shown := Some(ExportResultMessage(true));
        r := Ok(Some(ExportTarget(filename, folderId.value)));
      } else {
        shown := Some(ExportResultMessage(false));
        r := Ok(None);
      }
    }
  }
}
