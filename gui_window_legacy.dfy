/**
 * The older main window: the same font buttons and the same result message as the newer
 * one, and a credentials dialog that sets the user name and password on the `Workshops`
 * object and has it write them to the user-information file.
 */
module GuiWindowLegacy {
  import opened Wrappers
  import opened Strings
  import opened Workshops
  import opened GuiWindow

  class LegacyWindow {
    /** `fontSize`: the size the output field is set to by the font buttons. */
    var fontSize: int
    /** The output field's font point size. */
    var textPointSize: int
    /** The output field's text, which the font buttons keep. */
    var outputText: string

    predicate Valid()
      reads this
    {
      FontSizeValid(fontSize)
    }

    /** `setupUi`: the font size starts at 12 and the output field is empty. */
    constructor()
      ensures fontSize == InitialFontSize && outputText == ""
      ensures Valid()
    {
      fontSize := InitialFontSize;
      textPointSize := InitialFontSize;
      outputText := "";
    }

    /** `increaseFont`: one step up below the largest size, and the field shows its text at the new size. */
    method IncreaseFont()
      modifies this
      ensures fontSize == IncreasedFont(old(fontSize))
      ensures textPointSize == if fontSize != old(fontSize) then fontSize else old(textPointSize)
      ensures outputText == old(outputText)
      ensures old(Valid()) ==> Valid()
    {
      if fontSize < LargestFontSize {
        var text := outputText;
        fontSize := fontSize + FontStep;
        textPointSize := fontSize;
        outputText := text;
      }
    }

    /** `decreaseFont`: one step down above the smallest size, and the field shows its text at the new size. */
    method DecreaseFont()
      modifies this
      ensures fontSize == DecreasedFont(old(fontSize))
      ensures textPointSize == if fontSize != old(fontSize) then fontSize else old(textPointSize)
      ensures outputText == old(outputText)
      ensures old(Valid()) ==> Valid()
    {
      if fontSize > SmallestFontSize {
        var text := outputText;
        fontSize := fontSize - FontStep;
        textPointSize := fontSize;
        outputText := text;
      }
    }

    /**
     * `credsPopupBox`: when the dialog is accepted with both fields filled in, the user name
     * and password are set on `ws` and the user-information file is written with them
     * (its new contents are returned); otherwise `ws` is untouched and nothing is written.
     * Credentials without a newline or surrounding whitespace are read back from the file
     * as set. The result box reports which.
     */
    method CredsPopupBox(ws: Workshops, ok: bool, userName: string, password: string)
      returns (written: Option<string>, shown: MessageBox)
      modifies ws
      ensures Accepted(ok, userName, password) ==>
        ws.userName == userName && ws.userPassword == password
        && written == Some(UserInfoText(userName, password))
      ensures !Accepted(ok, userName, password) ==> unchanged(ws) && written.None?
      ensures ws.searchPhrase == old(ws.searchPhrase)
      ensures ws.numberOfWorkshops == old(ws.numberOfWorkshops) && ws.numberOfParticipants == old(ws.numberOfParticipants)
      ensures shown == CredsResultMessage(written.Some?)
      ensures written.Some? && '\n' !in userName && '\n' !in password && IsStripped(userName) && IsStripped(password)
        ==> ReadUserInfo(written.value) == (ws.userName, ws.userPassword)
    {
      if ok && |userName| > 0 && |password| > 0 {
        ws.userName := userName;
        ws.userPassword := password;
        written := Some(UserInfoText(ws.userName, ws.userPassword));
        if '\n' !in userName && '\n' !in password && IsStripped(userName) && IsStripped(password) {
          UserInfoRoundTrip(userName, password);
        }
        shown := CredsResultMessage(true);
      } else {
        written := None;
        shown := CredsResultMessage(false);
      }
    }
  }
}
